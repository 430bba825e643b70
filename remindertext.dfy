/**
 * The reminder branch of `process_command`: the time phrase searched for
 * in the lower-cased command, its removal from the command, and the
 * filler words scrubbed from what is left.
 */
module ReminderText {
  import opened Text
  import opened Decimal

  // ---------------------------------------------------------------------
  // The time phrase
  //   (at\s+\d{1,2}(?::\d{2})?\s*(?:am|pm)?|in\s+\d+\s+(?:minute|hour|day|week)s?|tomorrow)

  /** Where the run of white space that starts at `k` ends. */
  function SpaceEnd(s: string, k: nat): (e: nat)
    requires k <= |s|
    ensures k <= e <= |s|
    ensures forall j :: k <= j < e ==> IsSpace(s[j])
    ensures e < |s| ==> !IsSpace(s[e])
    decreases |s| - k
  {
    if k < |s| && IsSpace(s[k]) then SpaceEnd(s, k + 1) else k
  }

  /** Where the run of digits that starts at `k` ends. */
  function DigitEnd(s: string, k: nat): (e: nat)
    requires k <= |s|
    ensures k <= e <= |s|
    ensures forall j :: k <= j < e ==> IsDigit(s[j])
    ensures e < |s| ==> !IsDigit(s[e])
    decreases |s| - k
  {
    if k < |s| && IsDigit(s[k]) then DigitEnd(s, k + 1) else k
  }

  /** The two characters `c0 c1` at `k`. */
  predicate PairAt(s: string, k: nat, c0: char, c1: char) {
    k + 2 <= |s| && s[k] == c0 && s[k + 1] == c1
  }

  /** `at\s+\d{1,2}(?::\d{2})?\s*(?:am|pm)?` at the front of `s`: the length
      of the match. Every part after the hour is optional, so each part
      takes what it can and nothing is given back. */
  function AtPhrase(s: string): (n: Option<nat>)
    ensures n.Some? ==> 4 <= n.value <= |s| && s[..2] == "at"
  {
    if !PairAt(s, 0, 'a', 't') then None
    else
      var a := SpaceEnd(s, 2);
      var b := if DigitEnd(s, a) < a + 2 then DigitEnd(s, a) else a + 2;
      var c := if b + 3 <= |s| && s[b] == ':' && IsDigit(s[b + 1]) && IsDigit(s[b + 2]) then b + 3 else b;
      var e := SpaceEnd(s, c);
      var f := if PairAt(s, e, 'a', 'm') || PairAt(s, e, 'p', 'm') then e + 2 else e;
      if a == 2 || b == a then None
      else
        assert s[..2] == [s[0], s[1]];
        Some(f)
  }

  /** `minute|hour|day|week` at `k`: its length, or 0. */
  function UnitAt(s: string, k: nat): (n: nat)
    requires k <= |s|
    ensures k + n <= |s|
  {
    if StartsWith(s[k..], "minute") then 6
    else if StartsWith(s[k..], "hour") then 4
    else if StartsWith(s[k..], "day") then 3
    else if StartsWith(s[k..], "week") then 4
    else 0
  }

  /** `in\s+\d+\s+(?:minute|hour|day|week)s?` at the front of `s`. A space
      run or a digit run given back could not be followed by what comes
      next, so the greedy lengths are the only ones that can match. */
  function InPhrase(s: string): (n: Option<nat>)
    ensures n.Some? ==> 8 <= n.value <= |s| && s[..2] == "in"
  {
    if !PairAt(s, 0, 'i', 'n') then None
    else
      var a := SpaceEnd(s, 2);
      var b := DigitEnd(s, a);
      var c := SpaceEnd(s, b);
      var u := UnitAt(s, c);
      if a == 2 || b == a || c == b || u == 0 then None
      else
        assert s[..2] == [s[0], s[1]];
        var e := c + u;
        Some(if e < |s| && s[e] == 's' then e + 1 else e)
  }

  /** The three alternatives, in order, at the front of `s`. */
  function PhraseAt(s: string): (n: Option<nat>)
    ensures n.Some? ==> 0 < n.value <= |s|
  {
    match AtPhrase(s)
    case Some(n) => Some(n)
    case None =>
      match InPhrase(s)
      case Some(n) => Some(n)
      case None => if StartsWith(s, "tomorrow") then Some(8) else None
  }

  /** Whether and how long a phrase matches at each position of `s`. */
  function MatchesIn(s: string): (ms: seq<Option<nat>>)
    ensures |ms| == |s| + 1
    ensures forall j :: 0 <= j <= |s| ==> ms[j] == PhraseAt(s[j..])
  {
    seq(|s| + 1, j requires 0 <= j <= |s| => PhraseAt(s[j..]))
  }

  /** The first position at or after `i` holding a match. */
  function FirstSome(ms: seq<Option<nat>>, i: nat): (r: Option<nat>)
    requires i <= |ms|
    ensures r.Some? ==> i <= r.value < |ms| && ms[r.value].Some?
    ensures forall j :: i <= j < |ms| && (r.None? || j < r.value) ==> ms[j].None?
    decreases |ms| - i
  {
    if i == |ms| then None
    else if ms[i].Some? then Some(i)
    else FirstSome(ms, i + 1)
  }

  /** `re.search`: the leftmost position where a phrase matches, and the
      length matched there. */
  function SearchPhrase(s: string): (r: Option<(nat, nat)>)
    ensures r.Some? ==> (r.value.0 + r.value.1 <= |s| && PhraseAt(s[r.value.0..]) == Some(r.value.1))
    ensures forall j :: 0 <= j <= |s| && (r.None? || j < r.value.0) ==> PhraseAt(s[j..]).None?
  {
    var ms := MatchesIn(s);
    match FirstSome(ms, 0)
    case None => None
    case Some(j) => Some((j, ms[j].value))
  }

  // ---------------------------------------------------------------------
  // The filler words, removed as whole words ignoring case; the scan is
  // written for any list of non-empty words and used with `FILLERS`, in
  // the order of the alternation

  const FILLERS: seq<string> := ["remind", "me", "to", "set", "a", "an", "the", "about", "that",
    "please", "would you", "can you", "could you"]

  /** `\b` at position `i`: a word character on exactly one side. */
  predicate Boundary(s: string, i: nat)
    requires i <= |s|
  {
    (0 < i && IsWordChar(s[i - 1])) != (i < |s| && IsWordChar(s[i]))
  }

  predicate NonEmptyWords(ws: seq<string>) {
    forall w :: w in ws ==> w != []
  }

  /** `w` occurs at `i` ignoring case and ends on a boundary. */
  predicate WordAt(s: string, i: nat, w: string)
    requires i <= |s|
  {
    i + |w| <= |s| && Lower(s[i..i + |w|]) == w && Boundary(s, i + |w|)
  }

  /** The first of `ws[k..]` that occurs at `i` ignoring case and ends on a
      boundary: its length (see `FirstWordAtIff`). */
  function FirstWordAt(s: string, i: nat, ws: seq<string>, k: nat): (n: Option<nat>)
    requires i <= |s| && k <= |ws| && NonEmptyWords(ws)
    ensures n.Some? ==> 0 < n.value && i + n.value <= |s|
    decreases |ws| - k
  {
    if k == |ws| then None
    else
      var w := ws[k];
      assert w in ws;
      if WordAt(s, i, w) then Some(|w|)
      else FirstWordAt(s, i, ws, k + 1)
  }

  /** The word found is the first of `ws[k..]` that occurs at `i`, and
      nothing is found exactly when none of them does. */
  lemma {:induction false} FirstWordAtIff(s: string, i: nat, ws: seq<string>, k: nat)
    requires i <= |s| && k <= |ws| && NonEmptyWords(ws)
    ensures var n := FirstWordAt(s, i, ws, k);
      n.Some? ==>
        exists m :: k <= m < |ws| && WordAt(s, i, ws[m]) && |ws[m]| == n.value &&
          forall m' :: k <= m' < m ==> !WordAt(s, i, ws[m'])
    ensures FirstWordAt(s, i, ws, k).None? <==> forall m :: k <= m < |ws| ==> !WordAt(s, i, ws[m])
    decreases |ws| - k
  {
    if k < |ws| && !WordAt(s, i, ws[k]) {
      FirstWordAtIff(s, i, ws, k + 1);
    }
  }

  /** What is removed at `i`: the length of a filler that starts on a
      boundary there, matched ignoring case and ending on a boundary (see
      `RemovedAtIff`). */
  function RemovedAt(s: string, i: nat, ws: seq<string>): (n: Option<nat>)
    requires i <= |s| && NonEmptyWords(ws)
    ensures n.Some? ==> 0 < n.value && i + n.value <= |s|
  {
    if Boundary(s, i) then FirstWordAt(s, i, ws, 0) else None
  }

  /** Something is removed at `i` exactly when a boundary is there and a
      filler occurs at `i` ignoring case, ending on a boundary; what is
      removed is the first such filler of the list. */
  lemma {:induction false} RemovedAtIff(s: string, i: nat, ws: seq<string>)
    requires i <= |s| && NonEmptyWords(ws)
    ensures RemovedAt(s, i, ws).Some? <==> Boundary(s, i) && exists w :: w in ws && WordAt(s, i, w)
    ensures RemovedAt(s, i, ws).Some? ==>
      exists w :: w in ws && WordAt(s, i, w) && |w| == RemovedAt(s, i, ws).value
  {
    FirstWordAtIff(s, i, ws, 0);
  }

  lemma {:induction false} FillersNotEmpty()
    ensures NonEmptyWords(FILLERS)
  {
  }

  /** The text from `i` on with every filler match removed, scanning from
      the left without overlap; the boundaries are those of the whole text. */
  function ScrubFrom(s: string, i: nat, ws: seq<string>): (r: string)
    requires i <= |s| && NonEmptyWords(ws)
    ensures |r| <= |s| - i
    decreases |s| - i
  {
    if i == |s| then []
    else match RemovedAt(s, i, ws)
      case Some(n) => ScrubFrom(s, i + n, ws)
      case None => [s[i]] + ScrubFrom(s, i + 1, ws)
  }

  /** The text with the fillers removed. */
  function Scrub(s: string): (r: string)
    ensures |r| <= |s|
  {
    FillersNotEmpty();
    ScrubFrom(s, 0, FILLERS)
  }

  // ---------------------------------------------------------------------
  // The request

  /** The reminder the command asks for: its text and its time phrase,
      empty when there is none. */
  datatype Request = Request(text: string, timeStr: string)

  /** The time phrase in the lower-cased command, or the empty string. */
  function TimePhrase(cl: string): string {
    match SearchPhrase(cl)
    case None => []
    case Some((start, n)) => cl[start..start + n]
  }

  /** The reminder text and time phrase of `command`, or `None` when nothing
      is left of the text ("What would you like me to remind you about?"). */
  function ReminderRequest(command: string): (r: Option<Request>)
    ensures r.Some? ==> r.value.text != [] && r.value.timeStr == TimePhrase(Lower(command))
  {
    var timeStr := TimePhrase(Lower(command));
    var text := if timeStr == [] then command else Replace(command, timeStr, "");
    var cleaned := Strip(Scrub(text));
    if cleaned == [] then None else Some(Request(cleaned, timeStr))
  }

  // ---------------------------------------------------------------------
  // Properties

  /** The optional spaces before "am"/"pm" are taken even when no "am" or
      "pm" follows, so the phrase "at 5 " ends in a space. */
  lemma {:induction false} AtPhraseTakesTrailingSpace(h: char, rest: string)
    requires IsDigit(h) && rest != [] && !IsSpace(rest[0]) && rest[0] != 'a' && rest[0] != 'p'
    ensures AtPhrase("at " + [h] + " " + rest) == Some(5)
  {
    var s := "at " + [h] + " " + rest;
    assert s[..2] == "at" && s[2] == ' ' && s[3] == h && s[4] == ' ' && s[5] == rest[0];
    assert s[2..][..1] == " " && s[2..][1] == h;
    assert SpaceRun(s[2..]) == 1;
    assert s[3..][0] == h && s[3..][1] == ' ';
    assert DigitRun(s[3..]) == 1;
    assert s[4..][0] == ' ' && s[4..][1] == rest[0];
    assert SpaceRun(s[4..]) == 1;
    assert s[5..][0] == rest[0];
  }

  /** The search takes the leftmost phrase: a command starting with
      "tomorrow" has "tomorrow" as its phrase whatever follows, an "at"
      clause included, and that clock time stays in the text. */
  lemma {:induction false} TomorrowFirst(rest: string)
    ensures SearchPhrase("tomorrow" + rest) == Some((0, 8))
  {
    var s := "tomorrow" + rest;
    TomorrowAtFront(s);
    var ms := MatchesIn(s);
    assert ms[0] == PhraseAt(s[0..]);
    assert s[0..] == s;
    FirstSomeAtStart(ms);
  }

  lemma {:induction false} TomorrowAtFront(s: string)
    requires 8 <= |s| && s[..8] == "tomorrow"
    ensures PhraseAt(s) == Some(8)
  {
    assert s[0] == 't' && s[1] == 'o';
    assert !StartsWith(s, "at") && !StartsWith(s, "in");
    assert StartsWith(s, "tomorrow");
  }

  lemma {:induction false} FirstSomeAtStart(ms: seq<Option<nat>>)
    requires 0 < |ms| && ms[0].Some?
    ensures FirstSome(ms, 0) == Some(0)
  {
  }

  /** A text in which no filler starts on a boundary is left unchanged. */
  lemma {:induction false} ScrubKeepsClean(s: string, i: nat, ws: seq<string>)
    requires i <= |s| && NonEmptyWords(ws)
    requires forall j :: i <= j < |s| ==> RemovedAt(s, j, ws).None?
    ensures ScrubFrom(s, i, ws) == s[i..]
    decreases |s| - i
  {
    if i < |s| {
      ScrubKeepsClean(s, i + 1, ws);
      assert s[i..] == [s[i]] + s[i + 1..];
    }
  }

  /** The phrase is removed from the command as written, so when the
      command spells it with capitals it stays in the reminder text. */
  lemma {:induction false} CapitalisedPhraseStays(command: string)
    requires TimePhrase(Lower(command)) != [] && !Contains(command, TimePhrase(Lower(command)))
    ensures ReminderRequest(command).Some? ==> ReminderRequest(command).value.text == Strip(Scrub(command))
  {
    ReplaceAbsent(command, TimePhrase(Lower(command)), "");
  }

  /** Without a time phrase, the text is the scrubbed command. */
  lemma {:induction false} NoPhraseWholeCommand(command: string)
    requires forall j :: 0 <= j <= |command| ==> PhraseAt(Lower(command)[j..]).None?
    ensures ReminderRequest(command).Some? ==>
      ReminderRequest(command).value == Request(Strip(Scrub(command)), [])
    ensures ReminderRequest(command).None? <==> Strip(Scrub(command)) == []
  {
    var cl := Lower(command);
    assert |cl| == |command|;
    assert SearchPhrase(cl).None?;
  }

  // ---------------------------------------------------------------------
  // A match depends only on the text it takes

  /** `x` and `y` hold the same first `n` characters. */
  predicate Agree(x: string, y: string, n: nat) {
    n <= |x| && n <= |y| && forall i :: 0 <= i < n ==> x[i] == y[i]
  }

  /** A run of white space that ends inside the common part ends at the
      same place in both texts. */
  lemma {:induction false} SpaceEndAgree(x: string, y: string, n: nat, k: nat)
    requires Agree(x, y, n) && k <= n && SpaceEnd(x, k) < n
    ensures SpaceEnd(y, k) == SpaceEnd(x, k)
    decreases n - k
  {
    if IsSpace(x[k]) {
      SpaceEndAgree(x, y, n, k + 1);
    }
  }

  /** The same for a run of digits. */
  lemma {:induction false} DigitEndAgree(x: string, y: string, n: nat, k: nat)
    requires Agree(x, y, n) && k <= n && DigitEnd(x, k) < n
    ensures DigitEnd(y, k) == DigitEnd(x, k)
    decreases n - k
  {
    if IsDigit(x[k]) {
      DigitEndAgree(x, y, n, k + 1);
    }
  }

  /** A unit inside the common part is read the same in both texts. */
  lemma {:induction false} UnitAtAgree(x: string, y: string, n: nat, k: nat)
    requires Agree(x, y, n) && k <= n && 0 < UnitAt(x, k) <= n - k
    ensures UnitAt(y, k) == UnitAt(x, k)
  {
    var u := UnitAt(x, k);
    assert y[k..][..u] == x[k..][..u];
    assert y[k..][0] == x[k..][0];
  }

  lemma {:induction false} AtPhraseAgree(x: string, y: string, n: nat)
    requires AtPhrase(x) == Some(n) && Agree(x, y, n)
    ensures AtPhrase(y).Some?
  {
    var a := SpaceEnd(x, 2);
    assert a < n && IsDigit(x[a]);
    SpaceEndAgree(x, y, n, 2);
  }

  /** The steps of a match of the "in" alternative: the spaces end at
      `a`, the digits at `b`, the spaces after them at `c`, and a unit
      follows inside the match. */
  lemma {:induction false} InPhraseSteps(x: string, n: nat) returns (a: nat, b: nat, c: nat)
    requires InPhrase(x) == Some(n)
    ensures InSteps(x, a, b, c) && c + UnitAt(x, c) <= n
  {
    a := SpaceEnd(x, 2);
    b := DigitEnd(x, a);
    c := SpaceEnd(x, b);
  }

  /** "in", spaces up to `a`, digits up to `b`, spaces up to `c` and a unit. */
  predicate InSteps(x: string, a: nat, b: nat, c: nat) {
    PairAt(x, 0, 'i', 'n') && 2 < a < b < c <= |x|
    && a == SpaceEnd(x, 2) && b == DigitEnd(x, a) && c == SpaceEnd(x, b) && 0 < UnitAt(x, c)
  }

  /** Those steps give a match. */
  lemma {:induction false} InPhraseFromSteps(y: string, a: nat, b: nat, c: nat)
    requires InSteps(y, a, b, c)
    ensures InPhrase(y).Some?
  {
  }

  /** Steps taken inside the common part are taken in both texts. */
  lemma {:induction false} InStepsAgree(x: string, y: string, n: nat, a: nat, b: nat, c: nat)
    requires Agree(x, y, n) && InSteps(x, a, b, c) && c + UnitAt(x, c) <= n
    ensures InSteps(y, a, b, c)
  {
    SpaceEndAgree(x, y, n, 2);
    DigitEndAgree(x, y, n, a);
    SpaceEndAgree(x, y, n, b);
    UnitAtAgree(x, y, n, c);
  }

  lemma {:induction false} InPhraseAgree(x: string, y: string, n: nat)
    requires InPhrase(x) == Some(n) && Agree(x, y, n)
    ensures InPhrase(y).Some?
  {
    var a, b, c := InPhraseSteps(x, n);
    InStepsAgree(x, y, n, a, b, c);
    InPhraseFromSteps(y, a, b, c);
  }

  /** Whatever follows the text a phrase matched, a phrase matches there
      again. */
  lemma {:induction false} PhraseAtAgree(x: string, y: string, n: nat)
    requires PhraseAt(x) == Some(n) && Agree(x, y, n)
    ensures PhraseAt(y).Some?
  {
    if AtPhrase(x).Some? {
      AtPhraseAgree(x, y, n);
    } else if InPhrase(x).Some? {
      InPhraseAgree(x, y, n);
    } else {
      assert y[..8] == x[..8];
    }
  }

  lemma {:induction false} PhraseAtAgreeWhen(x: string, y: string, n: nat)
    ensures PhraseAt(x) == Some(n) && Agree(x, y, n) ==> PhraseAt(y).Some?
  {
    if PhraseAt(x) == Some(n) && Agree(x, y, n) {
      PhraseAtAgree(x, y, n);
    }
  }

  /** The phrase `re.search` found does not occur earlier in the text. */
  lemma {:induction false} PhraseNotEarlier(s: string, i: nat, n: nat, j: nat)
    requires SearchPhrase(s) == Some((i, n)) && j < i
    ensures !StartsWith(s[j..], s[i..i + n])
  {
    var p := s[i..i + n];
    assert StartsWith(s[j..], p) ==> Agree(s[i..], s[j..], n) by {
      assert forall k :: 0 <= k < n ==> s[i..][k] == p[k];
      assert StartsWith(s[j..], p) ==> forall k :: 0 <= k < n ==> s[j..][k] == p[k];
    }
    PhraseAtAgreeWhen(s[i..], s[j..], n);
  }

  /** `replace` passes over a prefix in which the pattern does not start. */
  lemma {:induction false} ReplaceAfter(s: string, x: string, y: string, pat: string, repl: string)
    requires s == x + y && pat != [] && |pat| <= |y|
    requires forall j :: 0 <= j < |x| ==> !StartsWith(s[j..], pat)
    ensures Replace(s, pat, repl) == x + Replace(y, pat, repl)
    decreases |x|
  {
    if x != [] {
      assert s[0..] == s;
      assert s[1..] == x[1..] + y;
      assert forall j :: 0 <= j < |x| - 1 ==> s[1..][j..] == s[j + 1..];
      ReplaceAfter(s[1..], x[1..], y, pat, repl);
    }
  }

  /**
   * The reminder text is the command with its time phrase removed and the
   * fillers scrubbed, stripped: for a command without capitals in which
   * the first phrase found is `p`, after `a`, the text is what `a` and
   * the rest with every other copy of `p` removed leave, and the time
   * phrase is `p`.
   */
  lemma {:induction false} PhraseRemoved(a: string, p: string, b: string)
    requires NoUpper(a + p + b)
    requires SearchPhrase(a + p + b) == Some((|a|, |p|))
    ensures TimePhrase(Lower(a + p + b)) == p
    ensures ReminderRequest(a + p + b).None? <==> Strip(Scrub(a + Replace(b, p, ""))) == []
    ensures ReminderRequest(a + p + b).Some? ==>
      ReminderRequest(a + p + b).value == Request(Strip(Scrub(a + Replace(b, p, ""))), p)
  {
    var s := a + p + b;
    LowerOfLower(s);
    assert s[|a|..|a| + |p|] == p;
    assert s == a + (p + b);
    forall j | 0 <= j < |a|
      ensures !StartsWith(s[j..], p)
    {
      PhraseNotEarlier(s, |a|, |p|, j);
    }
    ReplaceAfter(s, a, p + b, p, "");
    assert Replace(p + b, p, "") == Replace(b, p, "") by {
      assert (p + b)[..|p|] == p && (p + b)[|p|..] == b;
      assert "" + Replace(b, p, "") == Replace(b, p, "");
    }
    assert TimePhrase(Lower(s)) == p;
  }

  /** When the phrase occurs once, the text is what is around it, scrubbed
      and stripped. */
  lemma {:induction false} PhraseOnceRemoved(a: string, p: string, b: string)
    requires NoUpper(a + p + b) && !Contains(b, p)
    requires SearchPhrase(a + p + b) == Some((|a|, |p|))
    ensures ReminderRequest(a + p + b).Some? ==>
      ReminderRequest(a + p + b).value == Request(Strip(Scrub(a + b)), p)
  {
    PhraseRemoved(a, p, b);
    ReplaceAbsent(b, p, "");
  }

  // ---------------------------------------------------------------------
  // A filler standing alone is removed

  /** The character at `k`, or a space outside the text. */
  function CharAt(s: string, k: int): char {
    if 0 <= k < |s| then s[k] else ' '
  }

  /** The shape of the filler list the proofs below rely on: every word is
      non-empty, starts and ends with a letter and does not start with "y";
      white space in a word is followed by "y"; and where one word begins
      another, a letter follows it there. */
  predicate FillerRules(ws: seq<string>) {
    NonEmptyWords(ws) &&
    (forall w :: w in ws ==> w != [] && IsLetter(w[0]) && w[0] != 'y' && IsLetter(w[|w| - 1])) &&
    (forall w, k :: w in ws && 0 <= k < |w| && IsSpace(w[k]) ==> CharAt(w, k + 1) == 'y') &&
    (forall v, w :: v in ws && w in ws && |v| < |w| && w[..|v|] == v ==> IsLetter(w[|v|]))
  }

  /** Among the fillers only "a" begins another one, and a letter follows
      it there. */
  lemma {:induction false} FillerPrefixes(v: string, w: string)
    ensures v in FILLERS && w in FILLERS && |v| < |w| && w[..|v|] == v ==> v == "a" && IsLetter(w[1])
  {
    if v in FILLERS && w in FILLERS && |v| < |w| && w[..|v|] == v {
      assert CharAt(v, 0) == CharAt(w, 0);
      assert |v| < 2 || CharAt(v, 1) == CharAt(w, 1);
      assert |v| < 3 || CharAt(v, 2) == CharAt(w, 2);
    }
  }

  /** A filler starts and ends with a letter, does not start with "y", and
      its only white space is a space before "you". */
  lemma {:induction false} FillerShape(w: string)
    ensures w in FILLERS ==> w != [] && IsLetter(w[0]) && w[0] != 'y' && IsLetter(w[|w| - 1])
    ensures w in FILLERS ==> forall k :: 0 <= k < |w| && IsSpace(w[k]) ==> CharAt(w, k + 1) == 'y'
  {
  }

  /** The fillers have the shape the proofs rely on. */
  lemma {:induction false} FillersObeyRules()
    ensures FillerRules(FILLERS)
  {
    FillersNotEmpty();
    forall w | w in FILLERS
      ensures w != [] && IsLetter(w[0]) && w[0] != 'y' && IsLetter(w[|w| - 1])
    {
      FillerShape(w);
    }
    forall w, k | w in FILLERS && 0 <= k < |w| && IsSpace(w[k])
      ensures CharAt(w, k + 1) == 'y'
    {
      FillerShape(w);
    }
    forall v, w | v in FILLERS && w in FILLERS && |v| < |w| && w[..|v|] == v
      ensures IsLetter(w[|v|])
    {
      FillerPrefixes(v, w);
    }
  }

  /** Text that lower-cases to `w` has `w`'s characters, lower-cased. */
  lemma {:induction false} LowerSliceAt(s: string, p: nat, w: string)
    requires p + |w| <= |s| && Lower(s[p..p + |w|]) == w
    ensures forall k :: 0 <= k < |w| ==> w[k] == LowerChar(s[p + k])
  {
    forall k | 0 <= k < |w|
      ensures w[k] == LowerChar(s[p + k])
    {
      assert s[p..p + |w|][k] == s[p + k];
    }
  }

  /** Two words of the list found at the same place are the same word: a
      word that begins another is followed there by a letter and so does
      not end on a boundary. */
  lemma {:induction false} WordAtUnique(s: string, p: nat, v: string, w: string, ws: seq<string>)
    requires p <= |s| && FillerRules(ws)
    ensures v in ws && w in ws && WordAt(s, p, v) && WordAt(s, p, w) && |v| <= |w| ==> v == w
  {
    if v in ws && w in ws && WordAt(s, p, v) && WordAt(s, p, w) && |v| <= |w| {
      LowerSliceAt(s, p, v);
      LowerSliceAt(s, p, w);
      assert w[..|v|] == v;
      assert CharAt(w, |v| - 1) == CharAt(v, |v| - 1);
      PrefixNotBoundary(s, p, v, w);
    }
  }

  /** A word that begins a longer one followed there by a letter does not
      end on a boundary where the longer one is written. */
  lemma {:induction false} PrefixNotBoundary(s: string, p: nat, v: string, w: string)
    requires p + |w| <= |s| && forall k :: 0 <= k < |w| ==> w[k] == LowerChar(s[p + k])
    ensures 0 < |v| < |w| && IsLetter(CharAt(w, |v| - 1)) && IsLetter(CharAt(w, |v|)) ==> !Boundary(s, p + |v|)
  {
    if 0 < |v| < |w| && IsLetter(CharAt(w, |v| - 1)) && IsLetter(CharAt(w, |v|)) {
      assert IsWordChar(s[p + |v| - 1]) && IsWordChar(s[p + |v|]);
    }
  }

  /** A word of the list standing alone, after the start or a character
      that is not a word character and before the end or another such
      character, is what is removed where it starts. */
  lemma {:induction false} WordAloneFound(s: string, p: nat, w: string, ws: seq<string>)
    requires FillerRules(ws) && w in ws && p + |w| <= |s| && Lower(s[p..p + |w|]) == w
    requires p == 0 || !IsWordChar(s[p - 1])
    requires p + |w| == |s| || !IsWordChar(s[p + |w|])
    ensures RemovedAt(s, p, ws) == Some(|w|)
  {
    LowerSliceAt(s, p, w);
    assert IsWordChar(s[p]) && IsWordChar(s[p + |w| - 1]);
    assert Boundary(s, p) && WordAt(s, p, w);
    RemovedAtIff(s, p, ws);
    var v :| v in ws && WordAt(s, p, v) && |v| == RemovedAt(s, p, ws).value;
    WordAtUnique(s, p, v, w, ws);
    WordAtUnique(s, p, w, v, ws);
  }

  /** `u` is the tail of `t`. */
  predicate EndsWith(t: string, u: string) {
    |u| <= |t| && t[|t| - |u|..] == u
  }

  lemma {:induction false} EndsWithAppend(t: string, u: string)
    ensures EndsWith(t + u, u)
  {
    assert (t + u)[|t|..] == u;
  }

  /** One step of the scan from `i`: what it keeps, and where it goes on. */
  lemma {:induction false} ScrubNext(s: string, i: nat, ws: seq<string>) returns (kept: string, next: nat)
    requires i < |s| && NonEmptyWords(ws)
    ensures next == i + (if RemovedAt(s, i, ws).Some? then RemovedAt(s, i, ws).value else 1)
    ensures kept == if RemovedAt(s, i, ws).Some? then [] else [s[i]]
    ensures next <= |s| && ScrubFrom(s, i, ws) == kept + ScrubFrom(s, next, ws)
  {
    match RemovedAt(s, i, ws)
    case Some(n) =>
      kept, next := [], i + n;
    case None =>
      kept, next := [s[i]], i + 1;
  }

  /** The scan passes over what is removed at `i`. */
  lemma {:induction false} ScrubSkips(s: string, i: nat, n: nat, ws: seq<string>)
    requires i < |s| && NonEmptyWords(ws) && RemovedAt(s, i, ws) == Some(n)
    ensures ScrubFrom(s, i, ws) == ScrubFrom(s, i + n, ws)
  {
  }

  /** What is removed at `j` does not run past `p`. */
  predicate StaysBefore(s: string, j: nat, p: nat, ws: seq<string>)
    requires j <= |s| && NonEmptyWords(ws)
  {
    RemovedAt(s, j, ws).Some? ==> j + RemovedAt(s, j, ws).value <= p
  }

  /** The scan reaches `p` when nothing removed before `p` runs past it:
      what it gives from `i` is what it keeps before `p`, then what it gives
      from `p`. */
  lemma {:induction false} ScrubReaches(s: string, i: nat, p: nat, ws: seq<string>) returns (pre: string)
    requires i <= p <= |s| && NonEmptyWords(ws)
    requires forall j :: i <= j < p ==> StaysBefore(s, j, p, ws)
    ensures ScrubFrom(s, i, ws) == pre + ScrubFrom(s, p, ws)
    decreases p - i
  {
    if i == p {
      pre := [];
    } else {
      var kept, next := ScrubNext(s, i, ws);
      assert StaysBefore(s, i, p, ws);
      var rest := ScrubReaches(s, next, p, ws);
      pre := kept + rest;
    }
  }

  /** Nothing removed before `p` runs past it when white space precedes `p`
      and no "y" stands at `p`: white space inside a word of the list is
      followed by "y". */
  lemma {:induction false} NoRunPast(s: string, j: nat, p: nat, ws: seq<string>)
    requires FillerRules(ws)
    requires j < p <= |s| && IsSpace(s[p - 1]) && LowerChar(CharAt(s, p)) != 'y'
    ensures StaysBefore(s, j, p, ws)
  {
    RemovedAtIff(s, j, ws);
    if RemovedAt(s, j, ws).Some? {
      var v :| v in ws && WordAt(s, j, v) && |v| == RemovedAt(s, j, ws).value;
      LowerSliceAt(s, j, v);
      assert j + |v| > p ==> v[p - 1 - j] == LowerChar(s[p - 1]) == s[p - 1];
      assert j + |v| > p ==> CharAt(v, p - j) == LowerChar(CharAt(s, p));
    }
  }

  /** Nothing removed before `p` runs past it when `p` is the start, or
      white space precedes `p` and no "y" stands there. */
  lemma {:induction false} NothingRunsPast(s: string, p: nat, ws: seq<string>)
    requires FillerRules(ws) && p <= |s|
    requires p == 0 || (IsSpace(s[p - 1]) && LowerChar(CharAt(s, p)) != 'y')
    ensures forall j :: 0 <= j < p ==> StaysBefore(s, j, p, ws)
  {
    forall j | 0 <= j < p
      ensures StaysBefore(s, j, p, ws)
    {
      NoRunPast(s, j, p, ws);
    }
  }

  /** When the scan reaches `p` and skips what is removed there, it ends
      with what follows. */
  lemma {:induction false} ScrubEndsAfter(s: string, p: nat, n: nat, ws: seq<string>, pre: string)
    requires p < |s| && NonEmptyWords(ws) && RemovedAt(s, p, ws) == Some(n)
    requires ScrubFrom(s, 0, ws) == pre + ScrubFrom(s, p, ws)
    ensures EndsWith(ScrubFrom(s, 0, ws), ScrubFrom(s, p + n, ws))
  {
    ScrubSkips(s, p, n, ws);
    EndsWithAppend(pre, ScrubFrom(s, p + n, ws));
  }

  /** A word of the list standing alone, at the start or after white space
      and before the end or a character that is not a word character, is
      dropped whole. */
  lemma {:induction false} WordAloneRemoved(s: string, p: nat, w: string, ws: seq<string>)
    requires FillerRules(ws) && w in ws && p + |w| <= |s| && Lower(s[p..p + |w|]) == w
    requires p == 0 || IsSpace(s[p - 1])
    requires p + |w| == |s| || !IsWordChar(s[p + |w|])
    ensures RemovedAt(s, p, ws) == Some(|w|)
    ensures EndsWith(ScrubFrom(s, 0, ws), ScrubFrom(s, p + |w|, ws))
  {
    var n := |w|;
    WordAloneFound(s, p, w, ws);
    assert LowerChar(CharAt(s, p)) != 'y' by {
      LowerSliceAt(s, p, w);
      assert LowerChar(CharAt(s, p)) == w[0];
    }
    NothingRunsPast(s, p, ws);
    var pre := ScrubReaches(s, 0, p, ws);
    ScrubEndsAfter(s, p, n, ws, pre);
  }

  /**
   * A filler standing alone, at the start or after white space and before
   * the end or a character that is not a word character, is dropped whole:
   * it is what is removed where it starts, and the scrubbed text goes on
   * with what follows the filler.
   */
  lemma {:induction false} FillerAloneRemoved(s: string, p: nat, w: string)
    requires w in FILLERS && p + |w| <= |s| && Lower(s[p..p + |w|]) == w
    requires p == 0 || IsSpace(s[p - 1])
    requires p + |w| == |s| || !IsWordChar(s[p + |w|])
    ensures NonEmptyWords(FILLERS) && RemovedAt(s, p, FILLERS) == Some(|w|)
    ensures EndsWith(Scrub(s), ScrubFrom(s, p + |w|, FILLERS))
  {
    FillersObeyRules();
    WordAloneRemoved(s, p, w, FILLERS);
  }
}
