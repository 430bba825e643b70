// The text side of two handlers: the stop-word cleaning at the start of
// `search_web`, which decides between asking for a query, a news search
// and a web search, and `extract_city_from_query` for weather requests.

module Queries {
  import opened Text

  // ---------------------------------------------------------------------
  // Word lists

  /** `[w for w in ws if w.lower() not in stop]` */
  function Keep(ws: seq<string>, stop: seq<string>): (r: seq<string>)
    ensures forall w :: w in r <==> w in ws && Lower(w) !in stop
    ensures |r| <= |ws|
  {
    if ws == [] then []
    else (if Lower(ws[0]) !in stop then [ws[0]] else []) + Keep(ws[1..], stop)
  }

  lemma {:induction false} KeepCons(ws: seq<string>, stop: seq<string>)
    requires ws != []
    ensures Keep(ws, stop) == (if Lower(ws[0]) !in stop then [ws[0]] else []) + Keep(ws[1..], stop)
  {
  }

  /** The filter keeps the order of the words: it acts on a list piece by
      piece, and on one word by the stop-word test alone. */
  lemma {:induction false} KeepInOrder(x: seq<string>, y: seq<string>, stop: seq<string>)
    ensures Keep(x + y, stop) == Keep(x, stop) + Keep(y, stop)
    ensures |x| == 1 ==> Keep(x, stop) == if Lower(x[0]) !in stop then x else []
  {
    KeepAppend(x, y, stop);
    if |x| == 1 {
      KeepCons(x, stop);
      assert x[1..] == [];
      assert x == [x[0]];
    }
  }

  lemma {:induction false} KeepAppend(x: seq<string>, y: seq<string>, stop: seq<string>)
    ensures Keep(x + y, stop) == Keep(x, stop) + Keep(y, stop)
    decreases |x|
  {
    if x == [] {
      assert x + y == y;
    } else {
      KeepAppend(x[1..], y, stop);
      KeepAppendStep(x, y, stop);
    }
  }

  lemma {:induction false} KeepAppendStep(x: seq<string>, y: seq<string>, stop: seq<string>)
    requires x != []
    requires Keep(x[1..] + y, stop) == Keep(x[1..], stop) + Keep(y, stop)
    ensures Keep(x + y, stop) == Keep(x, stop) + Keep(y, stop)
  {
    var head := if Lower(x[0]) !in stop then [x[0]] else [];
    var a, b := Keep(x[1..], stop), Keep(y, stop);
    assert Keep(x + y, stop) == head + (a + b) by {
      HeadTailOfAppend(x, y);
      KeepCons(x + y, stop);
    }
    assert Keep(x, stop) == head + a by {
      KeepCons(x, stop);
    }
    AppendAssoc(head, a, b);
  }

  /** A list of words as `split()` yields them: non-empty, without spaces. */
  predicate AreWords(ws: seq<string>) {
    forall w :: w in ws ==> w != [] && forall i :: 0 <= i < |w| ==> !IsSpace(w[i])
  }

  lemma {:induction false} TokenOfWord(w: string, rest: string)
    requires w != [] && (forall i :: 0 <= i < |w| ==> !IsSpace(w[i]))
    requires rest == [] || IsSpace(rest[0])
    ensures TokenLength(w + rest) == |w|
  {
    var s := w + rest;
    assert forall i :: 0 <= i < |w| ==> s[i] == w[i];
    assert rest != [] ==> s[|w|] == rest[0];
  }

  /** A word followed by nothing or a space is the first word. */
  lemma {:induction false} WordsOfWordThen(w: string, rest: string)
    requires w != [] && (forall i :: 0 <= i < |w| ==> !IsSpace(w[i]))
    requires rest == [] || IsSpace(rest[0])
    ensures Words(w + rest) == [w] + Words(rest)
  {
    var s := w + rest;
    TokenOfWord(w, rest);
    assert s[..|w|] == w;
    assert s[|w|..] == rest;
  }

  lemma {:induction false} WordsOfJoinStep(w: string, rest: string)
    requires w != [] && (forall i :: 0 <= i < |w| ==> !IsSpace(w[i]))
    ensures Words(w + " " + rest) == [w] + Words(rest)
  {
    assert w + " " + rest == w + (" " + rest);
    WordsOfWordThen(w, " " + rest);
    assert (" " + rest)[1..] == rest;
  }

  /** `" ".join(ws).split() == ws` for words. */
  lemma {:induction false} WordsOfJoin(ws: seq<string>)
    requires AreWords(ws)
    ensures Words(Join(ws, " ")) == ws
    decreases |ws|
  {
    if ws != [] {
      var w := ws[0];
      assert w in ws;
      if |ws| == 1 {
        WordsOfWordThen(w, []);
        assert w + [] == w;
      } else {
        var rest := Join(ws[1..], " ");
        assert Join(ws, " ") == w + " " + rest;
        WordsOfJoinStep(w, rest);
        AreWordsTail(ws);
        WordsOfJoin(ws[1..]);
        assert ws == [w] + ws[1..];
      }
    }
  }

  lemma {:induction false} AreWordsTail(ws: seq<string>)
    requires AreWords(ws) && ws != []
    ensures AreWords(ws[1..])
  {
    forall v | v in ws[1..] ensures v in ws { }
  }

  /** `" ".join(ws)` of words neither starts nor ends with a space, and is
      empty only for no words. */
  lemma {:induction false} JoinEdges(ws: seq<string>)
    requires AreWords(ws)
    ensures Join(ws, " ") == [] <==> ws == []
    ensures Join(ws, " ") != [] ==> !IsSpace(Join(ws, " ")[0]) && !IsSpace(Join(ws, " ")[|Join(ws, " ")| - 1])
    decreases |ws|
  {
    if ws != [] {
      assert ws[0] in ws;
      if |ws| > 1 {
        AreWordsTail(ws);
        JoinEdges(ws[1..]);
      }
    }
  }

  // ---------------------------------------------------------------------
  // `search_web`: what the query asks for

  const WEB_STOP_WORDS: seq<string> := ["search", "for", "find", "about", "look", "up"]
  const NEWS_TERMS: seq<string> := ["news", "headlines", "latest"]
  const NEWS_STOP_WORDS: seq<string> := ["search", "for", "news", "headlines", "latest", "about", "get"]
  const ASK_WHAT := "What would you like me to search for?"

  datatype SearchPlan =
    | AskWhat                    // "What would you like me to search for?"
    | NewsSearch(topic: string)  // `get_google_news(topic, 5)` and its listing
    | WebSearch(terms: string)   // the Bing request and its listing

  /** The search terms: the words of `query` that are not stop words. */
  function SearchTerms(query: string): string {
    Strip(Join(Keep(Words(query), WEB_STOP_WORDS), " "))
  }

  /** The topic of a news search. */
  function NewsTopic(terms: string): string {
    var topic := Strip(Join(Keep(Words(Lower(terms)), NEWS_STOP_WORDS), " "));
    if topic == [] then "top stories" else topic
  }

  /** What to do with the cleaned search terms. */
  function PlanFor(terms: string): SearchPlan {
    if terms == [] then AskWhat
    else if AnyIn(NEWS_TERMS, Lower(terms)) then NewsSearch(NewsTopic(terms))
    else WebSearch(terms)
  }

  function PlanSearch(query: string): SearchPlan {
    PlanFor(SearchTerms(query))
  }

  lemma {:induction false} KeptAreWords(ws: seq<string>, stop: seq<string>)
    requires AreWords(ws)
    ensures AreWords(Keep(ws, stop))
  {
    forall w | w in Keep(ws, stop) ensures w in ws { }
  }

  /** Joining kept words and splitting again gives the kept words back. */
  lemma {:induction false} KeptWordsRejoined(ws: seq<string>, stop: seq<string>)
    requires AreWords(ws)
    ensures Strip(Join(Keep(ws, stop), " ")) == Join(Keep(ws, stop), " ")
    ensures Words(Strip(Join(Keep(ws, stop), " "))) == Keep(ws, stop)
    ensures Strip(Join(Keep(ws, stop), " ")) == [] <==> Keep(ws, stop) == []
  {
    var kept := Keep(ws, stop);
    KeptAreWords(ws, stop);
    JoinEdges(kept);
    StripOfStripped(Join(kept, " "));
    WordsOfJoin(kept);
  }

  /** The search terms are exactly the query's non-stop words, space-separated. */
  lemma {:induction false} SearchTermsWords(query: string)
    ensures Words(SearchTerms(query)) == Keep(Words(query), WEB_STOP_WORDS)
    ensures forall w :: w in Words(SearchTerms(query)) ==> w in Words(query) && Lower(w) !in WEB_STOP_WORDS
  {
    KeptWordsRejoined(Words(query), WEB_STOP_WORDS);
  }

  lemma {:induction false} KeepEmpty(ws: seq<string>, stop: seq<string>)
    ensures Keep(ws, stop) == [] <==> forall w :: w in ws ==> Lower(w) in stop
  {
    if Keep(ws, stop) != [] {
      assert Keep(ws, stop)[0] in Keep(ws, stop);
    }
  }

  /** The assistant asks what to search for exactly when every word of the
      query is a stop word (or there is none). */
  lemma {:induction false} AskWhatIffOnlyStopWords(query: string)
    ensures PlanSearch(query) == AskWhat <==>
      forall w :: w in Words(query) ==> Lower(w) in WEB_STOP_WORDS
  {
    AsksIffNothingKept(query);
    KeepEmpty(Words(query), WEB_STOP_WORDS);
  }

  lemma {:induction false} AsksIffNothingKept(query: string)
    ensures PlanSearch(query) == AskWhat <==> Keep(Words(query), WEB_STOP_WORDS) == []
  {
    var kept := Keep(Words(query), WEB_STOP_WORDS);
    KeptWordsRejoined(Words(query), WEB_STOP_WORDS);
    assert SearchTerms(query) == [] <==> kept == [];
    PlanAsks(query);
  }

  lemma {:induction false} PlanAsks(query: string)
    ensures PlanSearch(query) == AskWhat <==> SearchTerms(query) == []
  {
    PlanForAsks(SearchTerms(query));
  }

  lemma {:induction false} PlanForAsks(terms: string)
    ensures PlanFor(terms) == AskWhat <==> terms == []
  {
  }

  /** A news topic is never empty, and unless it is the default it holds
      none of the news stop words. */
  lemma {:induction false} NewsTopicSpec(terms: string)
    ensures NewsTopic(terms) != []
    ensures NewsTopic(terms) != "top stories" ==>
      forall w :: w in Words(NewsTopic(terms)) ==> Lower(w) !in NEWS_STOP_WORDS
  {
    KeptWordsRejoined(Words(Lower(terms)), NEWS_STOP_WORDS);
  }

  // ---------------------------------------------------------------------
  // `extract_city_from_query`

  /** The city, or the IndexError the second branch raises. */
  datatype CityResult = City(name: string) | Raised

  function ExtractCity(query: string): CityResult {
    var ql := Lower(query);
    if Contains(ql, "weather in") then
      var k := Find(ql, "weather in").value + 10;
      City(Strip(query[k..]))
    else if Contains(ql, "in") && Contains(ql, "weather") then
      var parts := SplitOn(ql, "in");
      var ws := Words(Strip(parts[1]));
      if ws == [] then Raised else City(ws[0])
    else City("")
  }

  /** "weather in X" names X, stripped, with its case kept. */
  lemma {:induction false} WeatherInNamesRest(rest: string)
    ensures ExtractCity("weather in" + rest) == City(Strip(rest))
  {
    var q := "weather in" + rest;
    var ql := Lower(q);
    assert q[..10] == "weather in";
    assert ql[..10] == "weather in";
    assert StartsWith(ql, "weather in");
    assert q[10..] == rest;
  }

  /** Outside the "weather in" case the answer is one word, or the error. */
  lemma {:induction false} CityIsOneWord(query: string)
    requires !Contains(Lower(query), "weather in")
    ensures ExtractCity(query) == Raised || ExtractCity(query) == City("") ||
      (ExtractCity(query).name != [] && forall i :: 0 <= i < |ExtractCity(query).name| ==> !IsSpace(ExtractCity(query).name[i]))
  {
    var ql := Lower(query);
    if Contains(ql, "in") && Contains(ql, "weather") {
      var ws := Words(Strip(SplitOn(ql, "in")[1]));
      if ws != [] {
        assert ws[0] in ws;
      }
    }
  }

  /**
   * Without "weather in", the text is split at its first "in", even one
   * inside a word. When only spaces follow that "in" (as in
   * "weather for Berlin"), there is no word to take and the handler raises.
   */
  lemma {:induction false} RaisesWhenNothingFollowsIn(query: string, k: nat)
    requires !Contains(Lower(query), "weather in") && Contains(Lower(query), "weather")
    requires Find(Lower(query), "in") == Some(k)
    requires forall i :: k + 2 <= i < |query| ==> IsSpace(query[i])
    ensures ExtractCity(query) == Raised
  {
    var ql := Lower(query);
    var tail := ql[k + 2..];
    assert forall i :: 0 <= i < |tail| ==> IsSpace(tail[i]) by {
      LowerKeepsSpaces(query);
    }
    var part := SplitOn(tail, "in")[0];
    assert SplitOn(ql, "in")[1] == part;
    FirstPartBlank(tail);
    StripEmptyIffBlank(part);
  }

  lemma {:induction false} FirstPartBlank(t: string)
    requires forall i :: 0 <= i < |t| ==> IsSpace(t[i])
    ensures forall i :: 0 <= i < |SplitOn(t, "in")[0]| ==> IsSpace(SplitOn(t, "in")[0][i])
  {
    match Find(t, "in")
    case None =>
    case Some(j) =>
      assert SplitOn(t, "in")[0] == t[..j];
  }
}
