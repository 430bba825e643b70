/** String primitives shared by the assistant: Python's `lower`, `in`,
    `find`, `replace`, `split`, `strip` and `join`, on `seq<char>`.
    Letters, digits and word characters are the ASCII ones; whitespace is
    the set Python's `str.isspace` accepts within Latin-1 plus the common
    Unicode space separators. */
module Text {

  datatype Option<T> = None | Some(value: T)

  predicate IsSpace(c: char) {
    c == ' ' || c == '\t' || c == '\n' || c == '\r' || c == '\U{000B}' || c == '\U{000C}'
    || ('\U{001C}' <= c <= '\U{001F}') || c == '\U{0085}' || c == '\U{00A0}' || c == '\U{1680}'
    || ('\U{2000}' <= c <= '\U{200A}') || c == '\U{2028}' || c == '\U{2029}'
    || c == '\U{202F}' || c == '\U{205F}' || c == '\U{3000}'
  }

  predicate IsDigit(c: char) { '0' <= c <= '9' }

  predicate IsUpper(c: char) { 'A' <= c <= 'Z' }

  predicate IsLower(c: char) { 'a' <= c <= 'z' }

  predicate IsLetter(c: char) { IsUpper(c) || IsLower(c) }

  /** A text that lower-casing leaves unchanged. */
  predicate NoUpper(s: string) {
    forall i :: 0 <= i < |s| ==> !IsUpper(s[i])
  }

  /** A character of the regular-expression class `\w`. */
  predicate IsWordChar(c: char) { IsLetter(c) || IsDigit(c) || c == '_' }

  function DigitValue(c: char): (d: nat)
    requires IsDigit(c)
    ensures d < 10
  {
    (c as int) - ('0' as int)
  }

  function LowerChar(c: char): (r: char)
    ensures IsUpper(c) ==> IsLower(r)
    ensures !IsUpper(c) ==> r == c
  {
    if IsUpper(c) then (c as int + 32) as char else c
  }

  function UpperChar(c: char): (r: char)
    ensures IsLower(c) ==> IsUpper(r)
    ensures !IsLower(c) ==> r == c
  {
    if IsLower(c) then (c as int - 32) as char else c
  }

  /** `str.lower()` */
  function Lower(s: string): (r: string)
    ensures |r| == |s|
    ensures forall i :: 0 <= i < |s| ==> r[i] == LowerChar(s[i])
  {
    seq(|s|, i requires 0 <= i < |s| => LowerChar(s[i]))
  }

  /** `str.title()`: a letter is upper-cased when the character before it is
      not a letter, and lower-cased otherwise. */
  function Title(s: string): (r: string)
    ensures |r| == |s|
    ensures forall i :: 0 <= i < |s| ==>
      r[i] == if i > 0 && IsLetter(s[i - 1]) then LowerChar(s[i]) else UpperChar(s[i])
  {
    TitleAfter(s, false)
  }

  /** `Title` of the rest of a text, given whether the character before it
      is a letter. */
  function TitleAfter(s: string, afterLetter: bool): (r: string)
    ensures |r| == |s|
    ensures forall i :: 0 <= i < |s| ==>
      r[i] == if (if i == 0 then afterLetter else IsLetter(s[i - 1])) then LowerChar(s[i]) else UpperChar(s[i])
  {
    if s == [] then []
    else
      var c := if afterLetter then LowerChar(s[0]) else UpperChar(s[0]);
      [c] + TitleAfter(s[1..], IsLetter(s[0]))
  }

  predicate StartsWith(s: string, p: string) {
    |p| <= |s| && s[..|p|] == p
  }

  /** `p in s` */
  predicate Contains(s: string, p: string)
    decreases |s|
  {
    StartsWith(s, p) || (|s| > 0 && Contains(s[1..], p))
  }

  /** `s.find(p)`: the first index at which `p` occurs. */
  function Find(s: string, p: string): (r: Option<nat>)
    ensures r.Some? <==> Contains(s, p)
    ensures r.Some? ==> r.value + |p| <= |s| && s[r.value..r.value + |p|] == p
    ensures r.Some? ==> forall k :: 0 <= k < r.value ==> !StartsWith(s[k..], p)
    decreases |s|
  {
    if StartsWith(s, p) then Some(0)
    else if |s| == 0 then None
    else match Find(s[1..], p)
      case None => None
      case Some(k) =>
        FindShift(s, p, k);
        Some(k + 1)
  }

  /** An occurrence found in the tail, with none before it there and none at
      the front, is the first occurrence in the whole text. */
  lemma {:induction false} FindShift(s: string, p: string, k: nat)
    requires s != [] && !StartsWith(s, p)
    requires k + |p| <= |s| - 1 && s[1..][k..k + |p|] == p
    requires forall j :: 0 <= j < k ==> !StartsWith(s[1..][j..], p)
    ensures s[k + 1..k + 1 + |p|] == p
    ensures forall j :: 0 <= j < k + 1 ==> !StartsWith(s[j..], p)
  {
    forall j | 1 <= j < k + 1
      ensures !StartsWith(s[j..], p)
    {
      assert s[j..] == s[1..][j - 1..];
    }
  }

  /** `any(w in s for w in ws)` */
  predicate AnyIn(ws: seq<string>, s: string) {
    exists w :: w in ws && Contains(s, w)
  }

  /** `s.replace(old, repl)` for a non-empty `old`: every occurrence, scanning
      from the left without overlap. */
  function Replace(s: string, pat: string, repl: string): (r: string)
    requires pat != []
    decreases |s|
  {
    if |s| < |pat| then s
    else if s[..|pat|] == pat then repl + Replace(s[|pat|..], pat, repl)
    else [s[0]] + Replace(s[1..], pat, repl)
  }

  /** `s.strip()` */
  function Strip(s: string): (r: string)
    ensures |r| <= |s|
    ensures r != [] ==> !IsSpace(r[0]) && !IsSpace(r[|r| - 1])
  {
    StripEnd(StripStart(s))
  }

  function StripStart(s: string): (r: string)
    ensures |r| <= |s| && r == s[|s| - |r|..]
    ensures r != [] ==> !IsSpace(r[0])
  {
    if s != [] && IsSpace(s[0]) then StripStart(s[1..]) else s
  }

  function StripEnd(s: string): (r: string)
    ensures |r| <= |s| && r == s[..|r|]
    ensures r != [] ==> !IsSpace(r[|r| - 1])
  {
    if s != [] && IsSpace(s[|s| - 1]) then StripEnd(s[..|s| - 1]) else s
  }

  /** Length of the run of non-space characters at the front of `s`. */
  function TokenLength(s: string): (n: nat)
    ensures n <= |s|
    ensures forall i :: 0 <= i < n ==> !IsSpace(s[i])
    ensures n < |s| ==> IsSpace(s[n])
  {
    if s == [] || IsSpace(s[0]) then 0 else 1 + TokenLength(s[1..])
  }

  /** Length of the run of whitespace at the front of `s`. */
  function SpaceRun(s: string): (n: nat)
    ensures n <= |s|
    ensures forall i :: 0 <= i < n ==> IsSpace(s[i])
    ensures n < |s| ==> !IsSpace(s[n])
  {
    if s != [] && IsSpace(s[0]) then 1 + SpaceRun(s[1..]) else 0
  }

  /** `s.split()`: the maximal runs of non-space characters, in order. */
  function Words(s: string): (ws: seq<string>)
    ensures forall w :: w in ws ==> w != [] && forall i :: 0 <= i < |w| ==> !IsSpace(w[i])
    decreases |s|
  {
    if s == [] then []
    else if IsSpace(s[0]) then Words(s[1..])
    else
      var n := TokenLength(s);
      [s[..n]] + Words(s[n..])
  }

  /** `s.split(sep)` for a non-empty separator. */
  function SplitOn(s: string, sep: string): (parts: seq<string>)
    requires sep != []
    ensures |parts| >= 1
    ensures |parts| >= 2 <==> Contains(s, sep)
    decreases |s|
  {
    match Find(s, sep)
    case None => [s]
    case Some(i) => [s[..i]] + SplitOn(s[i + |sep|..], sep)
  }

  /** `sep.join(ws)` */
  function Join(ws: seq<string>, sep: string): string {
    if ws == [] then []
    else if |ws| == 1 then ws[0]
    else ws[0] + sep + Join(ws[1..], sep)
  }

  /** `s.isdigit()` */
  predicate IsDigits(s: string) {
    s != [] && forall i :: 0 <= i < |s| ==> IsDigit(s[i])
  }

  /** Decimal rendering of a natural number, as `str(n)`. */
  function NatToString(n: nat): (r: string)
    ensures r != [] && forall i :: 0 <= i < |r| ==> IsDigit(r[i])
  {
    if n < 10 then [('0' as int + n) as char]
    else NatToString(n / 10) + [('0' as int + n % 10) as char]
  }

  /** `s * n` */
  function RepeatChar(c: char, n: nat): (r: string)
    ensures |r| == n && forall i :: 0 <= i < n ==> r[i] == c
  {
    if n == 0 then [] else [c] + RepeatChar(c, n - 1)
  }

  // ---------------------------------------------------------------------
  // Lemmas about the primitives

  lemma {:induction false} ContainsAt(s: string, p: string, i: nat)
    requires i + |p| <= |s| && s[i..i + |p|] == p
    ensures Contains(s, p)
    decreases i
  {
    if i == 0 {
      assert s[..|p|] == p;
    } else {
      assert s[1..][i - 1..i - 1 + |p|] == s[i..i + |p|];
      ContainsAt(s[1..], p, i - 1);
    }
  }

  lemma {:induction false} ContainsWitness(s: string, p: string) returns (i: nat)
    requires Contains(s, p)
    ensures i + |p| <= |s| && s[i..i + |p|] == p
    decreases |s|
  {
    if StartsWith(s, p) {
      i := 0;
    } else {
      var k := ContainsWitness(s[1..], p);
      i := k + 1;
      assert s[1..][k..k + |p|] == s[i..i + |p|];
    }
  }

  /** Substring is transitive: a text containing `q` contains everything `q`
      contains. */
  lemma {:induction false} ContainsTransitive(s: string, q: string, p: string)
    requires Contains(s, q) && Contains(q, p)
    ensures Contains(s, p)
  {
    var i := ContainsWitness(s, q);
    var j := ContainsWitness(q, p);
    var w := s[i..i + |q|];
    assert w == q;
    var x, y := s[i + j..i + j + |p|], w[j..j + |p|];
    forall k | 0 <= k < |p|
      ensures x[k] == y[k]
    {
      assert x[k] == s[i + j + k] && y[k] == w[j + k];
    }
    assert x == y;
    ContainsAt(s, p, i + j);
  }

  /** A text contains every middle piece of a concatenation it is made of. */
  lemma {:induction false} ContainsMiddle(a: string, b: string, c: string)
    ensures Contains(a + b + c, b)
  {
    assert (a + b + c)[|a|..|a| + |b|] == b;
    ContainsAt(a + b + c, b, |a|);
  }

  lemma {:induction false} ContainsPrefixOf(s: string, t: string, p: string)
    requires Contains(s, p)
    ensures Contains(s + t, p)
  {
    var i := ContainsWitness(s, p);
    assert (s + t)[i..i + |p|] == s[i..i + |p|];
    ContainsAt(s + t, p, i);
  }

  lemma {:induction false} ContainsSuffixOf(s: string, t: string, p: string)
    requires Contains(t, p)
    ensures Contains(s + t, p)
  {
    var i := ContainsWitness(t, p);
    assert (s + t)[|s| + i..|s| + i + |p|] == t[i..i + |p|];
    ContainsAt(s + t, p, |s| + i);
  }

  /** A text in which no character is `c` does not contain a pattern that
      has `c` in it. */
  lemma {:induction false} NotContainsChar(s: string, p: string, k: nat)
    requires k < |p| && forall i :: 0 <= i < |s| ==> s[i] != p[k]
    ensures !Contains(s, p)
    decreases |s|
  {
    if |p| <= |s| {
      assert s[..|p|][k] != p[k];
    }
    if |s| > 0 {
      NotContainsChar(s[1..], p, k);
    }
  }

  /** Replacing a one-character pattern acts character by character. */
  lemma {:induction false} ReplaceCharSplits(s: string, t: string, c: char, repl: string)
    ensures Replace(s + t, [c], repl) == Replace(s, [c], repl) + Replace(t, [c], repl)
    decreases |s|
  {
    if s == [] {
      assert s + t == t;
    } else {
      assert (s + t)[1..] == s[1..] + t;
      assert (s + t)[..1] == [s[0]];
      ReplaceCharSplits(s[1..], t, c, repl);
    }
  }

  /** Python's `lower` leaves whitespace where it was. */
  lemma {:induction false} LowerKeepsSpaces(s: string)
    ensures forall i :: 0 <= i < |s| ==> (IsSpace(Lower(s)[i]) <==> IsSpace(s[i]))
  {
  }

  /** `split()` never yields a word unless the text has a non-space
      character, and conversely. */
  lemma {:induction false} WordsEmptyIffBlank(s: string)
    ensures Words(s) == [] <==> forall i :: 0 <= i < |s| ==> IsSpace(s[i])
    decreases |s|
  {
    if s != [] && IsSpace(s[0]) {
      WordsEmptyIffBlank(s[1..]);
      assert forall i :: 1 <= i < |s| ==> s[i] == s[1..][i - 1];
    }
  }

  lemma {:induction false} StripStartBlank(s: string)
    ensures StripStart(s) == [] <==> forall i :: 0 <= i < |s| ==> IsSpace(s[i])
    decreases |s|
  {
    if s != [] && IsSpace(s[0]) {
      StripStartBlank(s[1..]);
      assert forall i :: 1 <= i < |s| ==> s[i] == s[1..][i - 1];
    }
  }

  /** `s.strip()` is empty exactly when `s` is all whitespace. */
  lemma {:induction false} StripEmptyIffBlank(s: string)
    ensures Strip(s) == [] <==> forall i :: 0 <= i < |s| ==> IsSpace(s[i])
  {
    StripStartBlank(s);
    var t := StripStart(s);
    if t != [] {
      assert !IsSpace(t[0]);
      assert StripEnd(t) != [] by {
        if StripEnd(t) == [] { StripEndKeepsFirst(t); }
      }
    }
  }

  lemma {:induction false} StripEndKeepsFirst(t: string)
    requires t != [] && !IsSpace(t[0])
    ensures StripEnd(t) != []
    decreases |t|
  {
    if IsSpace(t[|t| - 1]) {
      StripEndKeepsFirst(t[..|t| - 1]);
    }
  }

  /** Stripping a text that already starts and ends with non-space
      characters changes nothing, wherever the padding came from. */
  lemma {:induction false} StripOfStripped(s: string)
    requires s == [] || (!IsSpace(s[0]) && !IsSpace(s[|s| - 1]))
    ensures Strip(s) == s
  {
  }

  lemma {:induction false} StripStartPadded(pad: string, s: string)
    requires forall i :: 0 <= i < |pad| ==> IsSpace(pad[i])
    requires s == [] || !IsSpace(s[0])
    ensures StripStart(pad + s) == s
    decreases |pad|
  {
    if pad != [] {
      assert (pad + s)[1..] == pad[1..] + s;
      StripStartPadded(pad[1..], s);
    } else {
      assert pad + s == s;
    }
  }

  /** Replacing a pattern the text does not contain changes nothing. */
  lemma {:induction false} ReplaceAbsent(s: string, pat: string, repl: string)
    requires pat != [] && !Contains(s, pat)
    ensures Replace(s, pat, repl) == s
    decreases |s|
  {
    if |s| >= |pat| {
      assert s[..|pat|] != pat;
      ReplaceAbsent(s[1..], pat, repl);
    }
  }

  /** `s.strip()` removes exactly the white space at both ends: what is
      left starts right after the leading run of white space, and only white
      space follows it. */
  lemma {:induction false} StripIsInner(s: string)
    ensures SpaceRun(s) + |Strip(s)| <= |s|
    ensures Strip(s) == s[SpaceRun(s)..SpaceRun(s) + |Strip(s)|]
    ensures forall k :: SpaceRun(s) + |Strip(s)| <= k < |s| ==> IsSpace(s[k])
  {
    var n := SpaceRun(s);
    var t := StripStart(s);
    assert t == s[n..] by {
      StripStartDrops(s);
    }
    var r := StripEnd(t);
    assert r == s[n..n + |r|] by {
      assert r == t[..|r|];
    }
    StripEndKeepsSpace(t);
    SpaceAfterShift(s, t, n, |r|);
  }

  lemma {:induction false} SpaceAfterShift(s: string, t: string, n: nat, m: nat)
    requires n <= |s| && t == s[n..] && m <= |t|
    requires forall k :: m <= k < |t| ==> IsSpace(t[k])
    ensures forall k :: n + m <= k < |s| ==> IsSpace(s[k])
  {
    forall k | n + m <= k < |s|
      ensures IsSpace(s[k])
    {
      assert s[k] == t[k - n];
    }
  }

  lemma {:induction false} StripStartDrops(s: string)
    ensures StripStart(s) == s[SpaceRun(s)..]
    decreases |s|
  {
    if s != [] && IsSpace(s[0]) {
      StripStartDrops(s[1..]);
      assert s[1..][SpaceRun(s[1..])..] == s[SpaceRun(s)..];
    }
  }

  lemma {:induction false} StripEndKeepsSpace(t: string)
    ensures forall k :: |StripEnd(t)| <= k < |t| ==> IsSpace(t[k])
    decreases |t|
  {
    if t != [] && IsSpace(t[|t| - 1]) {
      StripEndKeepsSpace(t[..|t| - 1]);
    }
  }

  /** `s.split()` takes the maximal runs in order: white space at the front
      is skipped, and a run of non-space characters that ends at white space
      or at the end of the text is the first word. With
      `WordsEmptyIffBlank` this determines every split. */
  lemma {:induction false} WordsCons(pad: string, w: string, t: string)
    requires forall i :: 0 <= i < |pad| ==> IsSpace(pad[i])
    requires w != [] && forall i :: 0 <= i < |w| ==> !IsSpace(w[i])
    requires t == [] || IsSpace(t[0])
    ensures Words(pad + w + t) == [w] + Words(t)
    decreases |pad|
  {
    if pad == [] {
      var s := w + t;
      assert pad + w + t == s;
      assert forall i :: 0 <= i < |w| ==> s[i] == w[i];
      assert |w| < |s| ==> s[|w|] == t[0];
      assert TokenLength(s) == |w|;
      assert s[..|w|] == w && s[|w|..] == t;
    } else {
      assert (pad + w + t)[1..] == pad[1..] + w + t;
      WordsCons(pad[1..], w, t);
    }
  }

  /** `sep.join(s.split(sep)) == s`, and no part holds the separator. */
  lemma {:induction false} SplitOnJoin(s: string, sep: string)
    requires sep != []
    ensures Join(SplitOn(s, sep), sep) == s
    ensures forall k :: 0 <= k < |SplitOn(s, sep)| ==> !Contains(SplitOn(s, sep)[k], sep)
    decreases |s|
  {
    match Find(s, sep)
    case None =>
    case Some(i) =>
      var rest := s[i + |sep|..];
      SplitOnJoin(rest, sep);
      var parts := SplitOn(s, sep);
      assert parts == [s[..i]] + SplitOn(rest, sep);
      assert parts[1..] == SplitOn(rest, sep);
      assert s == s[..i] + sep + rest;
      NotContainsBefore(s, sep, i);
      assert forall k :: 1 <= k < |parts| ==> parts[k] == SplitOn(rest, sep)[k - 1];
  }

  /** A text holds no occurrence of `p` before the first position at which
      `p` starts. */
  lemma {:induction false} NotContainsBefore(s: string, p: string, i: nat)
    requires p != [] && i <= |s|
    requires forall k :: 0 <= k < i ==> !StartsWith(s[k..], p)
    ensures !Contains(s[..i], p)
    decreases i
  {
    if i > 0 {
      assert s[0..] == s;
      assert |p| <= i ==> s[..i][..|p|] == s[..|p|];
      assert forall k :: 0 <= k < i - 1 ==> s[1..][k..] == s[k + 1..];
      NotContainsBefore(s[1..], p, i - 1);
      assert s[..i][1..] == s[1..][..i - 1];
    }
  }

  /** Lower-casing a text without capitals changes nothing. */
  lemma {:induction false} LowerOfLower(s: string)
    requires NoUpper(s)
    ensures Lower(s) == s
  {
  }

  /** The head and the tail of a concatenation with a non-empty front. */
  lemma {:induction false} HeadTailOfAppend<T>(x: seq<T>, y: seq<T>)
    requires x != []
    ensures (x + y)[0] == x[0] && (x + y)[1..] == x[1..] + y
  {
  }

  /** Concatenation is associative. */
  lemma AppendAssoc<T>(p: seq<T>, q: seq<T>, r: seq<T>)
    ensures p + (q + r) == (p + q) + r
  {
  }
}
