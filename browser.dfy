/**
 * The browser side of the chat page: `formatMessageContent`, which turns a
 * reply into the HTML shown in the conversation, and the light/dark theme
 * choice of `toggleTheme` and `loadThemePreference`.
 */
module Browser {
  import opened Text

  // ---------------------------------------------------------------------
  // Global replacement of one character

  /** `s.replace(/c/g, r)` */
  function ReplaceChar(s: string, c: char, r: string): string
    decreases |s|
  {
    if s == [] then []
    else (if s[0] == c then r else [s[0]]) + ReplaceChar(s[1..], c, r)
  }

  lemma {:induction false} ReplaceCharAppend(a: string, b: string, c: char, r: string)
    ensures ReplaceChar(a + b, c, r) == ReplaceChar(a, c, r) + ReplaceChar(b, c, r)
    decreases |a|
  {
    if a == [] {
      assert a + b == b;
    } else {
      assert (a + b)[0] == a[0];
      assert (a + b)[1..] == a[1..] + b;
      ReplaceCharAppend(a[1..], b, c, r);
      var h := if a[0] == c then r else [a[0]];
      assert h + (ReplaceChar(a[1..], c, r) + ReplaceChar(b, c, r)) ==
        (h + ReplaceChar(a[1..], c, r)) + ReplaceChar(b, c, r);
    }
  }

  /** Replacing `c` by a text without `c` leaves no `c`. */
  lemma {:induction false} ReplaceCharRemoves(s: string, c: char, r: string)
    requires c !in r
    ensures c !in ReplaceChar(s, c, r)
    decreases |s|
  {
    if s != [] {
      ReplaceCharRemoves(s[1..], c, r);
    }
  }

  /** A character other than `c` that is absent from `s` and from `r` is
      absent from the result. */
  lemma {:induction false} ReplaceCharAbsent(s: string, c: char, r: string, d: char)
    requires d !in s && d !in r
    ensures d !in ReplaceChar(s, c, r)
    decreases |s|
  {
    if s != [] {
      assert d != s[0];
      ReplaceCharAbsent(s[1..], c, r, d);
    }
  }

  /** Without `c` nothing is replaced. */
  lemma {:induction false} ReplaceCharNone(s: string, c: char, r: string)
    requires c !in s
    ensures ReplaceChar(s, c, r) == s
    decreases |s|
  {
    if s != [] {
      ReplaceCharNone(s[1..], c, r);
      assert s == [s[0]] + s[1..];
    }
  }

  // ---------------------------------------------------------------------
  // Escaping

  const AMP := "&amp;"
  const LT := "&lt;"
  const GT := "&gt;"

  /** The three replacements, `&` first. */
  function Escape(s: string): string {
    ReplaceChar(ReplaceChar(ReplaceChar(s, '&', AMP), '<', LT), '>', GT)
  }

  /** What one character becomes. */
  function EscapeChar(c: char): string {
    if c == '&' then AMP else if c == '<' then LT else if c == '>' then GT else [c]
  }

  /** Because `&` goes first, the chain escapes each character on its own. */
  lemma {:induction false} EscapeCons(c: char, rest: string)
    ensures Escape([c] + rest) == EscapeChar(c) + Escape(rest)
  {
    ReplaceCharAppend([c], rest, '&', AMP);
    var a := ReplaceChar([c], '&', AMP);
    var a' := ReplaceChar(rest, '&', AMP);
    ReplaceCharAppend(a, a', '<', LT);
    var b := ReplaceChar(a, '<', LT);
    var b' := ReplaceChar(a', '<', LT);
    ReplaceCharAppend(b, b', '>', GT);
    EscapeOne(c);
  }

  lemma {:induction false} EscapeOne(c: char)
    ensures ReplaceChar(ReplaceChar(ReplaceChar([c], '&', AMP), '<', LT), '>', GT) == EscapeChar(c)
  {
    ReplaceCharOne(c, '&', AMP);
    if c == '&' {
      ReplaceCharNone(AMP, '<', LT);
      ReplaceCharNone(AMP, '>', GT);
    } else {
      ReplaceCharOne(c, '<', LT);
      if c == '<' {
        ReplaceCharNone(LT, '>', GT);
      } else {
        ReplaceCharOne(c, '>', GT);
      }
    }
  }

  lemma {:induction false} ReplaceCharOne(c: char, d: char, r: string)
    ensures ReplaceChar([c], d, r) == if c == d then r else [c]
  {
    assert [c][1..] == [];
    assert ReplaceChar([], d, r) == [];
  }

  /** The escaped text holds no angle bracket. */
  lemma {:induction false} EscapeHasNoAngles(s: string)
    ensures '<' !in Escape(s) && '>' !in Escape(s)
  {
    var a := ReplaceChar(s, '&', AMP);
    ReplaceCharRemoves(a, '<', LT);
    var b := ReplaceChar(a, '<', LT);
    ReplaceCharAbsent(b, '>', GT, '<');
    ReplaceCharRemoves(b, '>', GT);
  }

  /** Reading the entities back. */
  function Unescape(s: string): string
    decreases |s|
  {
    if s == [] then []
    else if StartsWith(s, AMP) then "&" + Unescape(s[5..])
    else if StartsWith(s, LT) then "<" + Unescape(s[4..])
    else if StartsWith(s, GT) then ">" + Unescape(s[4..])
    else [s[0]] + Unescape(s[1..])
  }

  /** Escaping loses nothing: an `&lt;` already in the text comes back as
      written and not as `<`. */
  lemma {:induction false} UnescapeEscape(s: string)
    ensures Unescape(Escape(s)) == s
    decreases |s|
  {
    if s == [] {
      assert Escape(s) == [];
    } else {
      var c := s[0];
      var rest := s[1..];
      assert s == [c] + rest;
      EscapeCons(c, rest);
      UnescapeEscape(rest);
      UnescapeAfter(c, Escape(rest));
    }
  }

  lemma {:induction false} UnescapeAfter(c: char, t: string)
    ensures Unescape(EscapeChar(c) + t) == [c] + Unescape(t)
  {
    var u := EscapeChar(c) + t;
    if c == '&' {
      assert u[..5] == AMP && u[5..] == t;
    } else if c == '<' {
      assert u[..4] == LT && u[4..] == t;
      assert !StartsWith(u, AMP) by { assert u[1] == 'l'; }
    } else if c == '>' {
      assert u[..4] == GT && u[4..] == t;
      assert !StartsWith(u, AMP) by { assert u[1] == 'g'; }
      assert !StartsWith(u, LT) by { assert u[1] == 'g'; }
    } else {
      assert u[0] == c && u[1..] == t;
    }
  }

  // ---------------------------------------------------------------------
  // Links: /(https?:\/\/[^\s]+)/g

  /** JavaScript's `\s`. */
  predicate JsSpace(c: char) {
    c == ' ' || c == '\t' || c == '\n' || c == '\r' || c == '\U{000B}' || c == '\U{000C}'
    || c == '\U{00A0}' || c == '\U{1680}' || ('\U{2000}' <= c <= '\U{200A}')
    || c == '\U{2028}' || c == '\U{2029}' || c == '\U{202F}' || c == '\U{205F}'
    || c == '\U{3000}' || c == '\U{FEFF}'
  }

  /** Where the run of non-space characters that starts at `k` ends. */
  function NonSpaceEnd(s: string, k: nat): (e: nat)
    requires k <= |s|
    ensures k <= e <= |s|
    ensures forall j :: k <= j < e ==> !JsSpace(s[j])
    ensures e < |s| ==> JsSpace(s[e])
    decreases |s| - k
  {
    if k == |s| || JsSpace(s[k]) then k else NonSpaceEnd(s, k + 1)
  }

  /** `http://` starts at `i`. */
  predicate HttpAt(s: string, i: nat) {
    i + 7 <= |s| && s[i] == 'h' && s[i + 1] == 't' && s[i + 2] == 't' && s[i + 3] == 'p'
    && s[i + 4] == ':' && s[i + 5] == '/' && s[i + 6] == '/'
  }

  /** `https://` starts at `i`. */
  predicate HttpsAt(s: string, i: nat) {
    i + 8 <= |s| && s[i] == 'h' && s[i + 1] == 't' && s[i + 2] == 't' && s[i + 3] == 'p'
    && s[i + 4] == 's' && s[i + 5] == ':' && s[i + 6] == '/' && s[i + 7] == '/'
  }

  /** The length of `https?://` at `i`, or 0. */
  function SchemeAt(s: string, i: nat): (p: nat)
    ensures p == 0 || p == 7 || p == 8
    ensures p == 7 <==> HttpAt(s, i)
    ensures p == 8 <==> HttpsAt(s, i)
  {
    if HttpAt(s, i) then 7 else if HttpsAt(s, i) then 8 else 0
  }

  /** The length of the link that starts at `i`: the scheme and the longest
      run of non-space characters after it, which must not be empty. */
  function UrlAt(s: string, i: nat): (n: Option<nat>)
    requires i <= |s|
    ensures n.Some? ==> n.value > SchemeAt(s, i) > 0
    ensures n.Some? ==> i + n.value <= |s|
    ensures n.Some? ==> forall j :: i <= j < i + n.value ==> !JsSpace(s[j])
    ensures n.Some? ==> i + n.value == |s| || JsSpace(s[i + n.value])
  {
    var p := SchemeAt(s, i);
    if p == 0 then None
    else
      var e := NonSpaceEnd(s, i + p);
      if e == i + p then None else Some(e - i)
  }

  /** `<a href="U">U</a>` */
  function Anchor(u: string): string {
    "<a href=\"" + u + "\">" + u + "</a>"
  }

  /** The text from `i` on with every link wrapped, scanning from the left. */
  function LinkifyFrom(s: string, i: nat): string
    requires i <= |s|
    decreases |s| - i
  {
    if i == |s| then []
    else match UrlAt(s, i)
      case Some(n) => Anchor(s[i..i + n]) + LinkifyFrom(s, i + n)
      case None => [s[i]] + LinkifyFrom(s, i + 1)
  }

  function Linkify(s: string): string {
    LinkifyFrom(s, 0)
  }

  /** A text in which no link starts is left as it is. */
  lemma {:induction false} LinkifyWithoutLinks(s: string, i: nat)
    requires i <= |s|
    requires forall j :: i <= j < |s| ==> UrlAt(s, j).None?
    ensures LinkifyFrom(s, i) == s[i..]
    decreases |s| - i
  {
    if i < |s| {
      LinkifyWithoutLinks(s, i + 1);
      assert s[i..] == [s[i]] + s[i + 1..];
    }
  }

  /** A link starts at `i` exactly when `http://` or `https://` starts
      there and a non-space character follows it; the link then takes the
      whole run of non-space characters from `i` (see `UrlAt`). */
  lemma {:induction false} UrlAtIff(s: string, i: nat)
    requires i <= |s|
    ensures UrlAt(s, i).Some? <==>
      (StartsWith(s[i..], "http://") && i + 7 < |s| && !JsSpace(s[i + 7])) ||
      (StartsWith(s[i..], "https://") && i + 8 < |s| && !JsSpace(s[i + 8]))
  {
    SchemeAtIff(s, i);
  }

  /** The scheme is `http://` or `https://`, which exclude each other. */
  lemma {:induction false} SchemeAtIff(s: string, i: nat)
    requires i <= |s|
    ensures SchemeAt(s, i) == 7 <==> StartsWith(s[i..], "http://")
    ensures SchemeAt(s, i) == 8 <==> StartsWith(s[i..], "https://")
  {
    var t := s[i..];
    assert forall k :: 0 <= k < |t| ==> t[k] == s[i + k];
    if StartsWith(t, "http://") {
      assert forall k :: 0 <= k < 7 ==> t[k] == "http://"[k];
    }
    if StartsWith(t, "https://") {
      assert forall k :: 0 <= k < 8 ==> t[k] == "https://"[k];
    }
    if HttpAt(s, i) {
      assert t[..7] == "http://";
    }
    if HttpsAt(s, i) {
      assert t[..8] == "https://";
    }
  }

  /** Text before which no link starts is copied as it is. */
  lemma {:induction false} LinkifyCopies(s: string, i: nat, j: nat)
    requires i <= j <= |s|
    requires forall k :: i <= k < j ==> UrlAt(s, k).None?
    ensures LinkifyFrom(s, i) == s[i..j] + LinkifyFrom(s, j)
    decreases j - i
  {
    if i < j {
      var tail := LinkifyFrom(s, j);
      assert LinkifyFrom(s, i) == [s[i]] + LinkifyFrom(s, i + 1) by {
        assert UrlAt(s, i).None?;
      }
      LinkifyCopies(s, i + 1, j);
      ConsSlice(s, i, j, tail);
    } else {
      assert s[i..j] == [];
    }
  }

  /** Moving one character from the front of a slice. */
  lemma ConsSlice(s: string, i: nat, j: nat, tail: string)
    requires i < j <= |s|
    ensures [s[i]] + (s[i + 1..j] + tail) == s[i..j] + tail
  {
    assert s[i..j] == [s[i]] + s[i + 1..j];
  }

  /**
   * Each link is wrapped whole: when no link starts in `a` and `u` is a
   * scheme followed by a non-empty run of non-space characters that ends
   * where `b` starts with white space or the text ends, linkifying
   * `a + u + b` copies `a`, wraps `u` in an anchor and goes on after `u`.
   */
  lemma {:induction false} LinkifyWrapsLink(a: string, u: string, b: string)
    requires forall j :: 0 <= j < |a| ==> UrlAt(a + u + b, j).None?
    requires 0 < SchemeAt(u, 0) < |u| && forall k :: 0 <= k < |u| ==> !JsSpace(u[k])
    requires b == [] || JsSpace(b[0])
    ensures |a| + |u| <= |a + u + b|
    ensures LinkifyFrom(a + u + b, 0) == a + Anchor(u) + LinkifyFrom(a + u + b, |a| + |u|)
  {
    var s := a + u + b;
    LinkInside(s, a, u, b);
    LinkifyLinkStep(s, |a|, |u|);
    assert Anchor(s[|a|..|a| + |u|]) == Anchor(u);
    LinkifyCopiesPrefix(s, a, Anchor(u), LinkifyFrom(s, |a| + |u|));
  }

  /** A prefix `a` in which no link starts is copied as it is. */
  lemma {:induction false} LinkifyCopiesPrefix(s: string, a: string, y: string, z: string)
    requires |a| <= |s| && s[..|a|] == a
    requires forall j :: 0 <= j < |a| ==> UrlAt(s, j).None?
    requires LinkifyFrom(s, |a|) == y + z
    ensures LinkifyFrom(s, 0) == a + y + z
  {
    LinkifyCopies(s, 0, |a|);
    assert s[0..|a|] == a;
  }

  /** The link `u` of `a + u + b` is found where it starts. */
  lemma {:induction false} LinkInside(s: string, a: string, u: string, b: string)
    requires s == a + u + b
    requires 0 < SchemeAt(u, 0) < |u| && forall k :: 0 <= k < |u| ==> !JsSpace(u[k])
    requires b == [] || JsSpace(b[0])
    ensures |a| + |u| <= |s| && UrlAt(s, |a|) == Some(|u|)
    ensures s[..|a|] == a && s[|a|..|a| + |u|] == u
  {
    assert s[..|a|] == a;
    assert s[|a|..|a| + |u|] == u;
    var i := |a|;
    assert forall k :: 0 <= k < |u| ==> s[i + k] == u[k];
    var p := SchemeAt(u, 0);
    assert SchemeAt(s, i) == p by {
      assert HttpAt(s, i) <==> HttpAt(u, 0);
      assert HttpsAt(s, i) <==> HttpsAt(u, 0);
    }
    assert i + |u| < |s| ==> s[i + |u|] == b[0];
    NonSpaceEndIs(s, i + p, i + |u|);
  }

  /** At a link, the anchor for it and then the rest. */
  lemma {:induction false} LinkifyLinkStep(s: string, i: nat, n: nat)
    requires i + n <= |s| && UrlAt(s, i) == Some(n)
    ensures LinkifyFrom(s, i) == Anchor(s[i..i + n]) + LinkifyFrom(s, i + n)
  {
  }

  /** The run of non-space characters from `k` ends at the first white
      space or at the end. */
  lemma {:induction false} NonSpaceEndIs(s: string, k: nat, e: nat)
    requires k <= e <= |s|
    requires forall j :: k <= j < e ==> !JsSpace(s[j])
    requires e == |s| || JsSpace(s[e])
    ensures NonSpaceEnd(s, k) == e
  {
    var f := NonSpaceEnd(s, k);
    assert f < |s| ==> JsSpace(s[f]);
  }

  // ---------------------------------------------------------------------
  // The whole transformation

  const BR := "<br>"

  /** `formatMessageContent(content)`; `None` stands for `null` or
      `undefined`, and both it and the empty string are falsy. */
  function FormatMessageContent(content: Option<string>): string {
    if content.None? || content.value == [] then []
    else ReplaceChar(Linkify(Escape(content.value)), '\n', BR)
  }

  /** A falsy content is shown as nothing; anything else as something. */
  lemma {:induction false} FormatEmptyIffFalsy(content: Option<string>)
    ensures FormatMessageContent(content) == [] <==> content.None? || content.value == []
  {
    if content.Some? && content.value != [] {
      var s := content.value;
      assert s == [s[0]] + s[1..];
      EscapeCons(s[0], s[1..]);
      var e := Escape(s);
      assert e != [];
      var l := Linkify(e);
      assert l != [] by {
        match UrlAt(e, 0)
        case Some(n) => assert |Anchor(e[..n])| > 0;
        case None =>
      }
      assert ReplaceChar(l, '\n', BR) != [];
    }
  }

  /** The output holds no newline: each became a `<br>`. */
  lemma {:induction false} FormatHasNoNewline(content: Option<string>)
    ensures '\n' !in FormatMessageContent(content)
  {
    if content.Some? && content.value != [] {
      ReplaceCharRemoves(Linkify(Escape(content.value)), '\n', BR);
    }
  }

  /** A reply without a link and without a newline is shown escaped and
      nothing else, and reading its entities back gives the reply. */
  lemma {:induction false} PlainTextEscapedOnly(text: string)
    requires text != [] && '\n' !in text
    requires forall j :: 0 <= j < |Escape(text)| ==> UrlAt(Escape(text), j).None?
    ensures FormatMessageContent(Some(text)) == Escape(text)
    ensures Unescape(FormatMessageContent(Some(text))) == text
  {
    var e := Escape(text);
    LinkifyWithoutLinks(e, 0);
    assert e[0..] == e;
    ReplaceCharAbsent(text, '&', AMP, '\n');
    ReplaceCharAbsent(ReplaceChar(text, '&', AMP), '<', LT, '\n');
    ReplaceCharAbsent(ReplaceChar(ReplaceChar(text, '&', AMP), '<', LT), '>', GT, '\n');
    ReplaceCharNone(e, '\n', BR);
    UnescapeEscape(text);
  }

  /** Inside the link markup, the address is the escaped text's run: it
      holds no `<` or `>` of the reply, so only the anchor's own tags are
      markup. */
  lemma {:induction false} LinkTextHasNoAngles(s: string, i: nat)
    requires i <= |Escape(s)| && UrlAt(Escape(s), i).Some?
    ensures var n := UrlAt(Escape(s), i).value;
      '<' !in Escape(s)[i..i + n] && '>' !in Escape(s)[i..i + n]
  {
    EscapeHasNoAngles(s);
  }

  // ---------------------------------------------------------------------
  // The theme

  /** `currentTheme === 'dark' ? 'light' : 'dark'`; `None` is a missing
      `data-theme` attribute. */
  function NextTheme(current: Option<string>): string {
    if current == Some("dark") then "light" else "dark"
  }

  /** The icon class of the toggle button for `theme`. */
  function ThemeIcon(theme: string): string {
    if theme == "dark" then "fas fa-sun" else "fas fa-moon"
  }

  /** `localStorage.getItem('theme') || 'light'` */
  function SavedTheme(stored: Option<string>): string {
    if stored.None? || stored.value == [] then "light" else stored.value
  }

  /** The toggle always lands on one of the two themes, the other one from
      dark, and dark from anything else. */
  lemma {:induction false} ToggleFlips(current: Option<string>)
    ensures NextTheme(current) == "light" || NextTheme(current) == "dark"
    ensures NextTheme(current) == "light" <==> current == Some("dark")
  {
  }

  /** Toggling twice from either theme comes back to it. */
  lemma {:induction false} ToggleTwice(theme: string)
    requires theme == "light" || theme == "dark"
    ensures NextTheme(Some(NextTheme(Some(theme)))) == theme
  {
  }

  /** The icon shows the sun exactly in the dark theme. */
  lemma {:induction false} IconMatchesTheme(current: Option<string>)
    ensures ThemeIcon(NextTheme(current)) == "fas fa-sun" <==> current != Some("dark")
    ensures ThemeIcon(NextTheme(current)) == "fas fa-moon" <==> current == Some("dark")
  {
  }

  /** The saved choice is what the next load applies, and a first visit
      gets the light theme. */
  lemma {:induction false} SavedThemeRestored(current: Option<string>)
    ensures SavedTheme(Some(NextTheme(current))) == NextTheme(current)
    ensures SavedTheme(None) == "light"
  {
  }
}
