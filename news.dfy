// News: the article source behind `get_news_api_articles` (the demo
// catalogue filter and the duplicate-title removal of the live path) and
// the two news list formatters, `_format_news_results` and the body of
// `get_trending_news`.
//
// The network requests are parameters: `headlines` and `found` are the
// article lists the two NewsAPI requests produced ([] when a request
// failed), `catalogue` is the built-in demo list. Dates arrive already
// rendered (`strftime`), or absent when missing or unreadable.

module News {
  import opened Text

  /** An article as `get_news_api_articles` hands it on. The source reads
      `title` (and, in the demo filter, `description`) without a default, so
      every article is taken to carry them; the live path stores "" for a
      missing description or content, and the formatter treats "" like a
      missing key. */
  datatype Article = Article(
    title: string,
    description: string,
    url: string,
    source: string,
    dateLabel: Option<string>,   // `publishedAt` as '%b %d, %Y %I:%M %p'
    content: string)

  /** The first `n` elements, as `s[:n]`. */
  function Take<T>(s: seq<T>, n: nat): (r: seq<T>)
    ensures |r| <= n && |r| <= |s| && r == s[..|r|]
    ensures |r| == n || r == s
  {
    if n < |s| then s[..n] else s
  }

  // ---------------------------------------------------------------------
  // The demo catalogue (NEWS_API_KEY unset)

  const BROAD_TERMS: seq<string> :=
    ["ml", "machine learning", "ai", "artificial intelligence", "news", "latest", "top stories", "trending"]

  /** `word in title.lower() or word in description.lower()` */
  predicate Mentions(a: Article, word: string) {
    Contains(Lower(a.title), word) || Contains(Lower(a.description), word)
  }

  predicate MentionsAny(a: Article, words: seq<string>) {
    exists w :: w in words && Mentions(a, w)
  }

  /** The catalogue articles that mention one of `words`, in catalogue order. */
  function Matching(catalogue: seq<Article>, words: seq<string>): (r: seq<Article>)
    ensures forall a :: a in r <==> a in catalogue && MentionsAny(a, words)
    ensures |r| <= |catalogue|
  {
    if catalogue == [] then []
    else (if MentionsAny(catalogue[0], words) then [catalogue[0]] else []) + Matching(catalogue[1..], words)
  }

  function DemoArticles(query: string, n: nat, catalogue: seq<Article>): seq<Article> {
    var q := Lower(query);
    if AnyIn(BROAD_TERMS, q) then Take(catalogue, n)
    else
      var filtered := Matching(catalogue, Words(q));
      if filtered != [] then Take(filtered, n) else Take(catalogue, 3)
  }

  // ---------------------------------------------------------------------
  // The live path (NEWS_API_KEY set)

  const HEADLINE_TERMS: seq<string> := ["trending", "top stories", "latest", "news"]

  /** Only responses with both a title and a url are kept. */
  predicate Usable(a: Article) {
    a.title != [] && a.url != []
  }

  function UsableOnly(s: seq<Article>): (r: seq<Article>)
    ensures forall a :: a in r <==> a in s && Usable(a)
  {
    if s == [] then []
    else (if Usable(s[0]) then [s[0]] else []) + UsableOnly(s[1..])
  }

  function TitlesOf(s: seq<Article>): set<string> {
    set a | a in s :: a.title
  }

  predicate DistinctTitles(s: seq<Article>) {
    forall i, j :: 0 <= i < j < |s| ==> s[i].title != s[j].title
  }

  /**
   * The duplicate-title filter: every article whose title has not been
   * seen before, in order.
   */
  function FirstByTitle(s: seq<Article>): (r: seq<Article>)
    ensures TitlesOf(r) == TitlesOf(s)
    ensures DistinctTitles(r)
    ensures |r| == |TitlesOf(s)|
    ensures forall a :: a in r ==> a in s
  {
    if s == [] then []
    else
      var p := s[..|s| - 1];
      var u := FirstByTitle(p);
      var x := s[|s| - 1];
      assert s == p + [x];
      FirstByTitleStep(p, u, x);
      if x.title in TitlesOf(u) then u else u + [x]
  }

  /** One more article keeps the filter's properties: it is dropped when
      its title was seen, and appended otherwise. */
  lemma {:induction false} FirstByTitleStep(p: seq<Article>, u: seq<Article>, x: Article)
    requires TitlesOf(u) == TitlesOf(p) && DistinctTitles(u) && |u| == |TitlesOf(p)|
    requires forall a :: a in u ==> a in p
    ensures var r := if x.title in TitlesOf(u) then u else u + [x];
      TitlesOf(r) == TitlesOf(p + [x]) && DistinctTitles(r) && |r| == |TitlesOf(p + [x])| &&
      forall a :: a in r ==> a in p + [x]
  {
    TitlesOfSnoc(p, x);
    TitlesOfSnoc(u, x);
    if x.title !in TitlesOf(u) {
      var r := u + [x];
      forall i | 0 <= i < |u| ensures r[i].title != x.title {
        assert u[i] in u;
      }
    }
  }

  lemma {:induction false} TitlesOfSnoc(s: seq<Article>, x: Article)
    ensures TitlesOf(s + [x]) == TitlesOf(s) + {x.title}
  {
    forall t | t in TitlesOf(s) ensures t in TitlesOf(s + [x]) {
      var a :| a in s && a.title == t;
      assert a in s + [x];
    }
    assert x in s + [x];
  }

  /** The `articles` list the live path builds: the usable headlines, for
      a headline-like query, then the usable search results. */
  function LiveInput(query: string, headlines: seq<Article>, found: seq<Article>): seq<Article> {
    var top := if AnyIn(HEADLINE_TERMS, Lower(query)) then UsableOnly(headlines) else [];
    top + UsableOnly(found)
  }

  /** What the live path returns: headlines first (for a headline-like
      query), then the search results, without repeated titles. */
  function LiveArticles(query: string, n: nat, headlines: seq<Article>, found: seq<Article>): seq<Article> {
    Take(FirstByTitle(LiveInput(query, headlines, found)), n)
  }

  /** `get_news_api_articles(query, n)` with the key `apiKey` ("demo" when unset). */
  function NewsApiArticles(query: string, n: nat, apiKey: string, catalogue: seq<Article>,
                           headlines: seq<Article>, found: seq<Article>): seq<Article>
  {
    if apiKey == "demo" then DemoArticles(query, n, catalogue)
    else LiveArticles(query, n, headlines, found)
  }

  /** The loop of the live path: a set of seen titles and the kept articles. */
  method Dedup(articles: seq<Article>) returns (unique: seq<Article>)
    ensures unique == FirstByTitle(articles)
  {
    var seen: set<string> := {};
    unique := [];
    for k := 0 to |articles|
      invariant unique == FirstByTitle(articles[..k])
      invariant seen == TitlesOf(unique)
    {
      assert articles[..k + 1][..k] == articles[..k];
      if articles[k].title !in seen {
        seen := seen + {articles[k].title};
        unique := unique + [articles[k]];
      }
    }
    assert articles[..|articles|] == articles;
  }

  // ---------------------------------------------------------------------
  // Properties of the article source

  /** The position of the first article titled `t`. */
  function FirstIndex(s: seq<Article>, t: string): (i: nat)
    requires t in TitlesOf(s)
    ensures i < |s| && s[i].title == t
    ensures forall k :: 0 <= k < i ==> s[k].title != t
  {
    if s[0].title == t then 0
    else
      assert t in TitlesOf(s[1..]) by {
        var a :| a in s && a.title == t;
        assert a != s[0];
      }
      1 + FirstIndex(s[1..], t)
  }

  lemma {:induction false} FirstIndexUnique(s: seq<Article>, t: string, i: nat)
    requires i < |s| && s[i].title == t && forall k :: 0 <= k < i ==> s[k].title != t
    ensures t in TitlesOf(s) && FirstIndex(s, t) == i
  {
    assert s[i] in s;
    var f := FirstIndex(s, t);
    assert !(f < i) && !(i < f);
  }

  /** Each title keeps its first article. */
  lemma {:induction false} KeepsFirst(s: seq<Article>, t: string)
    requires t in TitlesOf(s)
    ensures s[FirstIndex(s, t)] in FirstByTitle(s)
    decreases |s|
  {
    var p := s[..|s| - 1];
    var x := s[|s| - 1];
    assert s == p + [x];
    var i := FirstIndex(s, t);
    if i < |p| {
      assert p[i] == s[i];
      FirstIndexUnique(p, t, i);
      KeepsFirst(p, t);
    } else {
      assert t !in TitlesOf(p);
    }
  }

  /** An article survives the filter exactly when it is the first with its title. */
  lemma {:induction false} DedupKeepsExactlyFirsts(s: seq<Article>)
    ensures forall a :: a in FirstByTitle(s) <==> a in s && a == s[FirstIndex(s, a.title)]
  {
    var r := FirstByTitle(s);
    forall a | a in s ensures a in r <==> a == s[FirstIndex(s, a.title)] {
      var f := s[FirstIndex(s, a.title)];
      KeepsFirst(s, a.title);
    }
  }

  /** The demo catalogue never yields an article it does not hold. */
  lemma {:induction false} DemoFromCatalogue(query: string, n: nat, catalogue: seq<Article>)
    ensures forall a :: a in DemoArticles(query, n, catalogue) ==> a in catalogue
    ensures |DemoArticles(query, n, catalogue)| <= if n < 3 then 3 else n
    // a broad query gets the first n articles of the catalogue, in order
    ensures AnyIn(BROAD_TERMS, Lower(query)) ==> DemoArticles(query, n, catalogue) == Take(catalogue, n)
  {
    var q := Lower(query);
    if !AnyIn(BROAD_TERMS, q) {
      var filtered := Matching(catalogue, Words(q));
      var t := Take(filtered, n);
      forall a | a in t ensures a in catalogue {
        assert a in filtered;
      }
    }
  }

  /**
   * A query without a broad term gets the articles that mention one of its
   * words, or the first three of the catalogue when none does.
   */
  lemma {:induction false} DemoNarrowQuery(query: string, n: nat, catalogue: seq<Article>)
    requires !AnyIn(BROAD_TERMS, Lower(query))
    ensures forall a :: a in DemoArticles(query, n, catalogue) && (exists b :: b in catalogue && MentionsAny(b, Words(Lower(query)))) ==>
      MentionsAny(a, Words(Lower(query)))
    // with a match, the first n matches in catalogue order (see MatchingInOrder)
    ensures (exists b :: b in catalogue && MentionsAny(b, Words(Lower(query)))) ==>
      DemoArticles(query, n, catalogue) == Take(Matching(catalogue, Words(Lower(query))), n)
    ensures (forall b :: b in catalogue ==> !MentionsAny(b, Words(Lower(query)))) ==>
      DemoArticles(query, n, catalogue) == Take(catalogue, 3)
  {
    var words := Words(Lower(query));
    var filtered := Matching(catalogue, words);
    if filtered != [] {
      forall a | a in Take(filtered, n) ensures MentionsAny(a, words) {
        assert a in filtered;
      }
      assert filtered[0] in catalogue && MentionsAny(filtered[0], words);
    } else {
      forall b | b in catalogue ensures !MentionsAny(b, words) {
      }
    }
  }

  /** The query of `get_trending_news` is broad: the catalogue is returned in order. */
  lemma {:induction false} TrendingQueryIsBroad(n: nat, catalogue: seq<Article>)
    ensures DemoArticles("trending technology AI ML", n, catalogue) == Take(catalogue, n)
  {
    var q := Lower("trending technology AI ML");
    assert q[..8] == "trending";
    assert StartsWith(q, "trending");
    assert "trending" in BROAD_TERMS;
  }

  /**
   * The live path returns usable articles with distinct titles: the first
   * article of each title of the merged list, in the order of the list
   * (headlines before search results), as many as `n` allows.
   */
  lemma {:induction false} LiveArticlesSpec(query: string, n: nat, headlines: seq<Article>, found: seq<Article>)
    ensures |LiveArticles(query, n, headlines, found)| <= n
    ensures DistinctTitles(LiveArticles(query, n, headlines, found))
    ensures forall a :: a in LiveArticles(query, n, headlines, found) ==>
      Usable(a) && (a in found || (a in headlines && AnyIn(HEADLINE_TERMS, Lower(query))))
    // exactly n articles, unless the merged list has fewer titles
    ensures var titles := |TitlesOf(LiveInput(query, headlines, found))|;
      |LiveArticles(query, n, headlines, found)| == if n < titles then n else titles
    // each is the first article with its title, and they come in list order
    ensures var input, r := LiveInput(query, headlines, found), LiveArticles(query, n, headlines, found);
      (forall a :: a in r ==> a.title in TitlesOf(input) && a == input[FirstIndex(input, a.title)]) &&
      (forall i, j :: 0 <= i < j < |r| ==>
         r[i].title in TitlesOf(input) && r[j].title in TitlesOf(input) &&
         FirstIndex(input, r[i].title) < FirstIndex(input, r[j].title))
  {
    var top := if AnyIn(HEADLINE_TERMS, Lower(query)) then UsableOnly(headlines) else [];
    var input := LiveInput(query, headlines, found);
    var u := FirstByTitle(input);
    var r := Take(u, n);
    forall a | a in r ensures Usable(a) && (a in found || (a in headlines && AnyIn(HEADLINE_TERMS, Lower(query)))) {
      assert a in u;
      assert a in top + UsableOnly(found);
    }
    DedupKeepsExactlyFirsts(input);
    FirstByTitleInOrder(input);
    forall a | a in r ensures a.title in TitlesOf(input) && a == input[FirstIndex(input, a.title)] {
      assert a in u;
    }
    forall i, j | 0 <= i < j < |r|
      ensures r[i].title in TitlesOf(input) && r[j].title in TitlesOf(input)
      ensures FirstIndex(input, r[i].title) < FirstIndex(input, r[j].title)
    {
      assert r[i] == u[i] && r[j] == u[j];
    }
  }

  /** Where the first article of a title lies once one more article is
      appended: unchanged for a title already there, at the end for a new
      one. */
  lemma {:induction false} FirstIndexSnoc(p: seq<Article>, x: Article, t: string)
    requires t in TitlesOf(p) || t == x.title
    ensures t in TitlesOf(p + [x])
    ensures t in TitlesOf(p) ==> FirstIndex(p + [x], t) == FirstIndex(p, t)
    ensures t !in TitlesOf(p) ==> FirstIndex(p + [x], t) == |p|
  {
    TitlesOfSnoc(p, x);
    var s := p + [x];
    if t in TitlesOf(p) {
      var i := FirstIndex(p, t);
      assert s[i] == p[i];
      FirstIndexUnique(s, t, i);
    } else {
      forall k | 0 <= k < |p| ensures s[k].title != t {
        assert p[k] in p;
      }
      FirstIndexUnique(s, t, |p|);
    }
  }

  /** The filter keeps the order of the input: the first articles of the
      titles come out in the order in which they first appear. */
  lemma {:induction false} FirstByTitleInOrder(s: seq<Article>)
    ensures forall i, j :: 0 <= i < j < |FirstByTitle(s)| ==>
      FirstByTitle(s)[i].title in TitlesOf(s) && FirstByTitle(s)[j].title in TitlesOf(s) &&
      FirstIndex(s, FirstByTitle(s)[i].title) < FirstIndex(s, FirstByTitle(s)[j].title)
    decreases |s|
  {
    if s != [] {
      var p := s[..|s| - 1];
      var x := s[|s| - 1];
      assert s == p + [x];
      var u := FirstByTitle(p);
      assert FirstByTitle(s) == if x.title in TitlesOf(u) then u else u + [x];
      FirstByTitleInOrder(p);
      FirstByTitleInOrderStep(p, u, x, s, FirstByTitle(s));
    } else {
      assert |FirstByTitle(s)| == 0;
    }
  }

  /** One more article keeps the filter's output in order of first
      appearance. */
  lemma {:induction false} FirstByTitleInOrderStep(p: seq<Article>, u: seq<Article>, x: Article,
                                                   s: seq<Article>, r: seq<Article>)
    requires TitlesOf(u) == TitlesOf(p) && forall a :: a in u ==> a in p
    requires forall i, j :: 0 <= i < j < |u| ==>
      u[i].title in TitlesOf(p) && u[j].title in TitlesOf(p) &&
      FirstIndex(p, u[i].title) < FirstIndex(p, u[j].title)
    requires s == p + [x] && r == if x.title in TitlesOf(u) then u else u + [x]
    ensures forall i, j :: 0 <= i < j < |r| ==>
      r[i].title in TitlesOf(s) && r[j].title in TitlesOf(s) &&
      FirstIndex(s, r[i].title) < FirstIndex(s, r[j].title)
  {
    TitlesOfSnoc(p, x);
    forall k | 0 <= k < |u|
      ensures u[k].title in TitlesOf(p)
      ensures FirstIndex(s, u[k].title) == FirstIndex(p, u[k].title) < |p|
    {
      assert u[k] in u;
      FirstIndexSnoc(p, x, u[k].title);
    }
    if |r| > |u| {
      assert r[|u|] == x;
      FirstIndexSnoc(p, x, x.title);
    }
    forall i, j | 0 <= i < j < |r|
      ensures r[i].title in TitlesOf(s) && r[j].title in TitlesOf(s)
      ensures FirstIndex(s, r[i].title) < FirstIndex(s, r[j].title)
    {
      assert r[i] in r && r[j] in r;
    }
  }

  /** The demo filter keeps catalogue order: it acts on a list piece by
      piece, and on one article by the test alone. */
  lemma {:induction false} MatchingInOrder(x: seq<Article>, y: seq<Article>, words: seq<string>)
    ensures Matching(x + y, words) == Matching(x, words) + Matching(y, words)
    ensures |x| == 1 ==> Matching(x, words) == if MentionsAny(x[0], words) then x else []
    decreases |x|
  {
    if x == [] {
      assert x + y == y;
    } else {
      var head := if MentionsAny(x[0], words) then [x[0]] else [];
      HeadTailOfAppend(x, y);
      assert Matching(x + y, words) == head + Matching(x[1..] + y, words);
      assert Matching(x, words) == head + Matching(x[1..], words);
      MatchingInOrder(x[1..], y, words);
      assert head + (Matching(x[1..], words) + Matching(y, words)) ==
        (head + Matching(x[1..], words)) + Matching(y, words);
      if |x| == 1 {
        assert x[1..] == [];
        assert x == [x[0]];
      }
    }
  }

  /** The usable-article filter keeps the order of the response. */
  lemma {:induction false} UsableOnlyInOrder(x: seq<Article>, y: seq<Article>)
    ensures UsableOnly(x + y) == UsableOnly(x) + UsableOnly(y)
    ensures |x| == 1 ==> UsableOnly(x) == if Usable(x[0]) then x else []
    decreases |x|
  {
    if x == [] {
      assert x + y == y;
    } else {
      var head := if Usable(x[0]) then [x[0]] else [];
      HeadTailOfAppend(x, y);
      assert UsableOnly(x + y) == head + UsableOnly(x[1..] + y);
      assert UsableOnly(x) == head + UsableOnly(x[1..]);
      UsableOnlyInOrder(x[1..], y);
      assert head + (UsableOnly(x[1..]) + UsableOnly(y)) == (head + UsableOnly(x[1..])) + UsableOnly(y);
      if |x| == 1 {
        assert x[1..] == [];
        assert x == [x[0]];
      }
    }
  }

  // ---------------------------------------------------------------------
  // Concatenation of a list of pieces

  /** `"".join(parts)` */
  function Concat(parts: seq<string>): string {
    if parts == [] then [] else Concat(parts[..|parts| - 1]) + parts[|parts| - 1]
  }

  lemma {:induction false} JoinSnoc(ws: seq<string>, w: string, sep: string)
    requires ws != []
    ensures Join(ws + [w], sep) == Join(ws, sep) + sep + w
    decreases |ws|
  {
    if |ws| > 1 {
      assert (ws + [w])[1..] == ws[1..] + [w];
      JoinSnoc(ws[1..], w, sep);
    }
  }

  // ---------------------------------------------------------------------
  // `_format_news_results`

  /** A search result as `_format_news_results` reads it. Every result is
      taken to carry a `title`, which the source reads without a default;
      "" stands for a missing or empty optional field, which `.get` treats
      alike. */
  datatype NewsItem = NewsItem(
    title: string,
    source: string,
    dateLabel: Option<string>,   // `published` as '%b %d, %Y', when one of the two formats reads it
    snippet: string,
    link: string)

  const NO_PREVIEW := "No content preview available"
  const ITEM_SEPARATOR := "\n\n---\n\n"

  function NoNewsAbout(query: string): string {
    "I couldn't find any news about '" + query + "'. Please try a different search term."
  }

  function NewsHeader(query: string): string {
    if Lower(query) != "top stories" then "\U{1F4F0} *Latest News about '" + Title(query) + "':*\n"
    else "\U{1F4F0} *Latest Top Stories:*\n"
  }

  function ItemTitle(i: nat, a: NewsItem): string {
    NatToString(i) + ". *" + a.title + "*"
  }

  function ItemSource(a: NewsItem): string {
    if a.source != [] then "\n   \U{1F4E1} " + a.source else ""
  }

  function ItemDate(a: NewsItem): string {
    if a.dateLabel.Some? then " | \U{1F4C5} " + a.dateLabel.value else ""
  }

  function ItemSnippet(a: NewsItem): string {
    if a.snippet != [] && a.snippet != NO_PREVIEW then "\n" + a.snippet else ""
  }

  function ItemLink(a: NewsItem): string {
    if a.link != [] then "\n\U{1F517} Read more: " + a.link else ""
  }

  /** One item: its numbered title line with source and date, then its
      snippet and link. */
  function ItemBlock(i: nat, a: NewsItem): string {
    ItemTitle(i, a) + ItemSource(a) + ItemDate(a) + ItemSnippet(a) + ItemLink(a)
  }

  function ItemBlocks(items: seq<NewsItem>): (bs: seq<string>)
    ensures |bs| == |items|
  {
    seq(|items|, k requires 0 <= k < |items| => ItemBlock(k + 1, items[k]))
  }

  /** The report: a header, then the numbered items with a rule between two items. */
  function NewsReport(items: seq<NewsItem>, query: string): string {
    if items == [] then NoNewsAbout(query)
    else NewsHeader(query) + Join(ItemBlocks(items), ITEM_SEPARATOR)
  }

  /** `_format_news_results(items, query)` */
  method FormatNewsResults(items: seq<NewsItem>, query: string) returns (text: string)
    ensures text == NewsReport(items, query)
  {
    if items == [] {
      return NoNewsAbout(query);
    }
    text := ListItems(NewsHeader(query), items);
  }

  /** The formatter's loop, which grows a list of pieces and extends its last one in place. */
  method ListItems(header: string, items: seq<NewsItem>) returns (text: string)
    ensures text == header + Join(ItemBlocks(items), ITEM_SEPARATOR)
  {
    var formatted: seq<string> := [header];
    ghost var blocks := ItemBlocks(items);
    for i := 0 to |items|
      invariant formatted != []
      invariant i == 0 ==> Concat(formatted) == header
      invariant 0 < i ==> (Concat(formatted) ==
        header + Join(blocks[..i], ITEM_SEPARATOR) + (if i < |items| then ITEM_SEPARATOR else ""))
    {
      ghost var before := Concat(formatted);
      formatted := AddItem(formatted, i + 1, items[i]);
      assert blocks[i] == ItemBlock(i + 1, items[i]);
      JoinedStep(header, before, blocks, i, ITEM_SEPARATOR);
      if i + 1 < |items| {
        formatted := Snoc(formatted, ITEM_SEPARATOR);
      }
    }
    assert blocks[..|items|] == blocks;
    text := Concat(formatted);
  }

  /** The pieces one item adds: its title line, extended in place by the
      source and the date, then the snippet and the link. */
  method AddItem(formatted: seq<string>, i: nat, a: NewsItem) returns (r: seq<string>)
    ensures r != [] && Concat(r) == Concat(formatted) + ItemBlock(i, a)
  {
    ghost var c0 := Concat(formatted);
    var t, src, date, snip, link := ItemTitle(i, a), ItemSource(a), ItemDate(a), ItemSnippet(a), ItemLink(a);
    r := Snoc(formatted, t);
    if a.source != [] {
      r := AppendToLast(r, src);
    }
    assert Concat(r) == c0 + t + src;
    if a.dateLabel.Some? {
      r := AppendToLast(r, date);
    }
    assert Concat(r) == c0 + t + src + date;
    if a.snippet != [] && a.snippet != NO_PREVIEW {
      r := Snoc(r, snip);
    }
    assert Concat(r) == c0 + t + src + date + snip;
    if a.link != [] {
      r := Snoc(r, link);
    }
    assert Concat(r) == c0 + t + src + date + snip + link;
    Assoc5(c0, t, src, date, snip, link);
  }

  lemma {:induction false} Assoc5(c: string, t: string, s: string, d: string, n: string, l: string)
    ensures c + t + s + d + n + l == c + (t + s + d + n + l)
  {
  }

  /** Adding block `i` after what the first `i` blocks produced gives the
      first `i + 1` blocks joined. */
  lemma {:induction false} JoinedStep(header: string, before: string, blocks: seq<string>, i: nat, sep: string)
    requires i < |blocks|
    requires i == 0 ==> before == header
    requires 0 < i ==> before == header + Join(blocks[..i], sep) + sep
    ensures before + blocks[i] == header + Join(blocks[..i + 1], sep)
  {
    JoinBlocks(blocks, i, sep);
  }

  /** `parts[-1] += extra` */
  function AppendToLast(parts: seq<string>, extra: string): (r: seq<string>)
    requires parts != []
    ensures r != [] && Concat(r) == Concat(parts) + extra
  {
    var n := |parts| - 1;
    var r := parts[..n] + [parts[n] + extra];
    assert r[..n] == parts[..n];
    Assoc3(Concat(parts[..n]), parts[n], extra);
    r
  }

  /** `parts.append(extra)` */
  function Snoc(parts: seq<string>, extra: string): (r: seq<string>)
    ensures r != [] && Concat(r) == Concat(parts) + extra
  {
    assert (parts + [extra])[..|parts|] == parts;
    parts + [extra]
  }

  /** One more block of a joined list. */
  lemma {:induction false} JoinBlocks(blocks: seq<string>, i: nat, sep: string)
    requires i < |blocks|
    ensures Join(blocks[..i + 1], sep) ==
      (if i == 0 then blocks[0] else Join(blocks[..i], sep) + sep + blocks[i])
  {
    assert blocks[..i + 1] == blocks[..i] + [blocks[i]];
    if i > 0 {
      JoinSnoc(blocks[..i], blocks[i], sep);
    }
  }

  /** The header names the query unless it is "top stories" in any case. */
  lemma {:induction false} NewsHeaderChoice(query: string)
    ensures Lower(query) == "top stories" <==> NewsHeader(query) == "\U{1F4F0} *Latest Top Stories:*\n"
  {
    if Lower(query) != "top stories" {
      var h := NewsHeader(query);
      assert h[10] == 'N';
      assert "\U{1F4F0} *Latest Top Stories:*\n"[10] == 'T';
    }
  }

  // ---------------------------------------------------------------------
  // `get_trending_news`

  const TRENDING_TITLE := "COMPREHENSIVE TRENDING NEWS - ML, AI & TECHNOLOGY\n"
  const TRENDING_QUERY := "trending technology AI ML"
  const NO_TRENDING := "I couldn't fetch trending news at the moment. Please try again later."

  /** `"\n" + "=" * 80 + "\n"` */
  function Rule(): (r: string)
    ensures |r| == 82 && r[0] == '\n' && r[81] == '\n'
    ensures forall i :: 1 <= i <= 80 ==> r[i] == '='
  {
    "\n" + RepeatChar('=', 80) + "\n"
  }

  /** `content[:300] + '...'` for a long content, the content itself otherwise. */
  function Preview(content: string): (p: string)
    ensures |p| <= 303
    ensures |content| <= 300 ==> p == content
    ensures |content| > 300 ==> |p| == 303
    ensures |content| > 300 ==> p[..300] == content[..300] && p[300..] == "..."
  {
    if |content| > 300 then content[..300] + "..." else content
  }

  /** One numbered article of the trending list. */
  function TrendingEntry(i: nat, a: Article): string {
    "**" + NatToString(i) + ". " + a.title + "**"
    + (if a.source != [] then "\n   Source: " + a.source else "")
    + (if a.dateLabel.Some? then " | Published: " + a.dateLabel.value else "")
    + (if a.description != [] then "\n   Summary: " + a.description else "")
    + (if a.content != [] then "\n   Details: " + Preview(a.content) else "")
    + (if a.url != [] then "\n   Read More: " + a.url else "")
  }

  function TrendingEntries(articles: seq<Article>): (es: seq<string>)
    ensures |es| == |articles|
  {
    seq(|articles|, k requires 0 <= k < |articles| => TrendingEntry(k + 1, articles[k]))
  }

  /** The trending report: the title line, then the entries with a rule of
      80 '=' between two entries, lines joined by newlines. */
  function TrendingReport(articles: seq<Article>): string {
    if articles == [] then NO_TRENDING
    else TRENDING_TITLE + "\n" + Join(TrendingEntries(articles), "\n" + Rule() + "\n")
  }


  /** The body of `get_trending_news` on the fetched `articles`. */
  method FormatTrending(articles: seq<Article>) returns (text: string)
    ensures text == TrendingReport(articles)
  {
    if articles == [] {
      return NO_TRENDING;
    }
    text := JoinWithRules(TRENDING_TITLE, TrendingEntries(articles), Rule());
  }

  /**
   * The list-building loop of `get_trending_news`: the title, then each
   * entry followed by the rule unless it is the last, joined by newlines.
   */
  method JoinWithRules(title: string, entries: seq<string>, rule: string) returns (text: string)
    requires entries != []
    ensures text == title + "\n" + Join(entries, "\n" + rule + "\n")
  {
    var formatted: seq<string> := [title];
    ghost var sep := "\n" + rule + "\n";
    for i := 0 to |entries|
      invariant formatted != []
      invariant i == 0 ==> Join(formatted, "\n") == title
      invariant 0 < i ==> (Join(formatted, "\n") ==
        title + "\n" + Join(entries[..i], sep) + (if i < |entries| then "\n" + rule else ""))
    {
      ghost var before := Join(formatted, "\n");
      JoinSnoc(formatted, entries[i], "\n");
      formatted := formatted + [entries[i]];
      RuleStep(title, before, entries, i, rule);
      if i + 1 < |entries| {
        JoinSnoc(formatted, rule, "\n");
        Assoc3(title + "\n" + Join(entries[..i + 1], sep), "\n", rule);
        formatted := formatted + [rule];
      }
    }
    assert entries[..|entries|] == entries;
    text := Join(formatted, "\n");
  }

  lemma {:induction false} RuleStep(title: string, before: string, entries: seq<string>, i: nat, rule: string)
    requires i < |entries|
    requires i == 0 ==> before == title
    requires 0 < i ==> before == title + "\n" + Join(entries[..i], "\n" + rule + "\n") + ("\n" + rule)
    ensures before + "\n" + entries[i] == title + "\n" + Join(entries[..i + 1], "\n" + rule + "\n")
  {
    var sep := "\n" + rule + "\n";
    var x := Join(entries[..i], sep);
    if 0 < i {
      calc {
        before + "\n";
        title + "\n" + x + ("\n" + rule) + "\n";
        { Assoc3(title + "\n" + x, "\n" + rule, "\n"); }
        title + "\n" + x + sep;
      }
    }
    JoinedStep(title + "\n", before + "\n", entries, i, sep);
  }

  lemma {:induction false} Assoc3(a: string, b: string, c: string)
    ensures a + b + c == a + (b + c)
  {
  }
}
