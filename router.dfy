/**
 * The decision list of `process_command`: which handler a command goes to.
 * Every rule is a test on the lower-cased command (or, for the short-input
 * fallback, on the command's own words); the first rule that fires wins.
 */
module Router {
  import opened Text

  /** The rules of `process_command`, one per handler. */
  datatype Rule =
    | Greeting           // `greet()`
    | TimeQuery          // `get_time()`
    | DateQuery          // `get_date()`
    | MathQuery          // `solve_math(command)`
    | WeatherQuery       // `get_weather(extract_city_from_query(command))`
    | ComprehensiveNews  // `get_trending_news(7)`
    | TrendingNews       // `get_trending_news(5)`
    | SearchQuery        // cleaned `search_web`
    | ReminderCreate     // `set_reminder`
    | ReminderList       // `get_due_reminders()`
    | ShortSearch        // `search_web(command)` for short or long-worded input

  /** The rules in the order they are tried. */
  const RULES: seq<Rule> := [Greeting, TimeQuery, DateQuery, MathQuery, WeatherQuery,
    ComprehensiveNews, TrendingNews, SearchQuery, ReminderCreate, ReminderList, ShortSearch]

  const GREETING_INPUTS: seq<string> := ["hello", "hi", "greetings", "sup", "what's up", "hey"]
  const TIME_TERMS: seq<string> := ["time", "what time", "current time"]
  const DATE_TERMS: seq<string> := ["date", "today", "what day"]
  const MATH_INDICATORS: seq<string> := ["+", "-", "*", "/", "=", "plus", "minus", "times",
    "divided by", "add", "subtract", "multiply", "divide", "calculate", "solve", "math"]
  const WEATHER_TERMS: seq<string> := ["weather", "temperature", "forecast", "how is the weather"]
  const COMPREHENSIVE_NEWS_TERMS: seq<string> := ["all details from api", "fetch all details",
    "comprehensive news", "all ml ai news", "all trending news"]
  const TRENDING_TERMS: seq<string> := ["trending", "top stories", "latest news", "all news"]
  const SEARCH_VERBS: seq<string> := ["search", "find", "google", "look up", "who is", "what is", "where is"]
  const REMINDER_INDICATORS: seq<string> := ["remind", "reminder", "remember", "alert", "notify"]
  const LIST_TERMS: seq<string> := ["my reminders", "show reminders", "list reminders", "any reminders"]

  /** `not command or not command.strip()` */
  predicate Blank(command: string) {
    Strip(command) == []
  }

  /** Some word of `s.split()` is all digits. */
  predicate HasDigitWord(s: string) {
    exists w :: w in Words(s) && IsDigits(w)
  }

  /** `len(command.split()) < 5 or any(len(word) > 15 ...)` */
  predicate ShortOrLongWorded(command: string) {
    |Words(command)| < 5 || exists w :: w in Words(command) && |w| > 15
  }

  /** The phrases whose presence in the lower-cased command fires `rule`. */
  function Phrases(rule: Rule): seq<string> {
    match rule
    case Greeting => GREETING_INPUTS
    case TimeQuery => TIME_TERMS
    case DateQuery => DATE_TERMS
    case MathQuery => MATH_INDICATORS
    case WeatherQuery => WEATHER_TERMS
    case ComprehensiveNews => COMPREHENSIVE_NEWS_TERMS
    case TrendingNews => TRENDING_TERMS
    case SearchQuery => SEARCH_VERBS
    case ReminderCreate => REMINDER_INDICATORS
    case ReminderList => LIST_TERMS
    case ShortSearch => []
  }

  /** The tests some rules make besides looking for their phrases. */
  predicate OtherTest(rule: Rule, command: string) {
    match rule
    case MathQuery => HasDigitWord(Lower(command))
    case SearchQuery => Contains(Lower(command), "?")
    case ShortSearch => ShortOrLongWorded(command)
    case _ => false
  }

  /** Whether `rule`'s test holds of `command`. */
  predicate Fires(rule: Rule, command: string) {
    AnyIn(Phrases(rule), Lower(command)) || OtherTest(rule, command)
  }

  /** The index of the first `true` at or after `k`. */
  function FirstTrue(bs: seq<bool>, k: nat): (r: Option<nat>)
    requires k <= |bs|
    ensures r.Some? ==> k <= r.value < |bs| && bs[r.value]
    ensures forall j :: k <= j < |bs| && (r.None? || j < r.value) ==> !bs[j]
    decreases |bs| - k
  {
    if k == |bs| then None
    else if bs[k] then Some(k)
    else FirstTrue(bs, k + 1)
  }

  /** Which rules fire, in rule order. */
  function Outcomes(command: string): (bs: seq<bool>)
    ensures |bs| == |RULES|
    ensures forall j :: 0 <= j < |bs| ==> bs[j] == Fires(RULES[j], command)
  {
    seq(|RULES|, j requires 0 <= j < |RULES| => Fires(RULES[j], command))
  }

  /** Where `process_command` sends a command. */
  datatype Route =
    | Blank_              // "I didn't catch that. Could you please repeat?"
    | Handled(rule: Rule) // the handler of the first rule that fires
    | Default             // "I'm not sure how to help with that. ..."

  function RouteOf(command: string): Route {
    if Blank(command) then Blank_
    else match FirstTrue(Outcomes(command), 0)
      case None => Default
      case Some(k) => Handled(RULES[k])
  }

  // ---------------------------------------------------------------------
  // The decision list

  /** Rule `k` handles a command exactly when the command is not blank,
      rule `k` fires, and no rule before it does. */
  lemma {:induction false} FirstMatch(command: string, k: nat)
    requires k < |RULES|
    ensures RouteOf(command) == Handled(RULES[k]) <==>
      !Blank(command) && Fires(RULES[k], command) &&
      forall j :: 0 <= j < k ==> !Fires(RULES[j], command)
  {
    var bs := Outcomes(command);
    FirstTrueAt(bs, k);
    assert (forall j :: 0 <= j < k ==> !bs[j]) <==> (forall j :: 0 <= j < k ==> !Fires(RULES[j], command));
    if RouteOf(command) == Handled(RULES[k]) {
      var r := FirstTrue(bs, 0);
      RulesDistinct(r.value, k);
    }
  }

  lemma {:induction false} FirstTrueAt(bs: seq<bool>, k: nat)
    requires k < |bs|
    ensures FirstTrue(bs, 0) == Some(k) <==> bs[k] && forall j :: 0 <= j < k ==> !bs[j]
  {
  }

  lemma {:induction false} RulesOrder()
    ensures |RULES| == 11
    ensures RULES[0] == Greeting && RULES[1] == TimeQuery && RULES[2] == DateQuery
    ensures RULES[3] == MathQuery && RULES[4] == WeatherQuery && RULES[5] == ComprehensiveNews
    ensures RULES[6] == TrendingNews && RULES[7] == SearchQuery && RULES[8] == ReminderCreate
    ensures RULES[9] == ReminderList && RULES[10] == ShortSearch
  {
  }

  lemma {:induction false} RulesDistinct(i: nat, j: nat)
    requires i < |RULES| && j < |RULES| && RULES[i] == RULES[j]
    ensures i == j
  {
  }

  /** The default message is given exactly when no rule fires. */
  lemma {:induction false} DefaultWhenNothingFires(command: string)
    ensures RouteOf(command) == Default <==>
      !Blank(command) && forall j :: 0 <= j < |RULES| ==> !Fires(RULES[j], command)
  {
    var bs := Outcomes(command);
    var r := FirstTrue(bs, 0);
    assert (forall j :: 0 <= j < |RULES| ==> !bs[j]) <==> (forall j :: 0 <= j < |RULES| ==> !Fires(RULES[j], command));
    if !Blank(command) && r.Some? {
      assert bs[r.value];
    }
  }

  /** Whitespace-only input, and only that, is answered with "I didn't
      catch that". */
  lemma {:induction false} BlankIffWhitespace(command: string)
    ensures RouteOf(command) == Blank_ <==> forall i :: 0 <= i < |command| ==> IsSpace(command[i])
  {
    StripEmptyIffBlank(command);
  }

  /**
   * A word of digits sends to `solve_math` any command that the greeting,
   * time and date rules let through, ahead of weather, news, search and
   * reminders.
   */
  lemma {:induction false} DigitWordIsMath(command: string)
    requires HasDigitWord(Lower(command))
    requires forall j :: 0 <= j < 3 ==> !Fires(RULES[j], command)
    ensures RouteOf(command) == Handled(MathQuery)
  {
    NotBlankWithDigitWord(command);
    DigitWordFiresMath(command);
    FirstMatch(command, 3);
  }

  lemma {:induction false} DigitWordFiresMath(command: string)
    requires HasDigitWord(Lower(command))
    ensures RULES[3] == MathQuery && Fires(RULES[3], command)
  {
    RulesOrder();
    assert Fires(MathQuery, command);
  }

  lemma {:induction false} NotBlankWithDigitWord(command: string)
    requires HasDigitWord(Lower(command))
    ensures !Blank(command)
  {
    var w :| w in Words(Lower(command)) && IsDigits(w);
    WordsEmptyIffBlank(Lower(command));
    StripEmptyIffBlank(command);
    LowerKeepsSpaces(command);
  }

  /**
   * Every list phrase contains "remind", so whenever the list rule fires
   * the reminder-creation rule, which comes first, has fired already: the
   * list handler is never reached.
   */
  lemma {:induction false} ListNeverReached(command: string)
    ensures RouteOf(command) != Handled(ReminderList)
  {
    if Fires(ReminderList, command) {
      var cl := Lower(command);
      var p :| p in LIST_TERMS && Contains(cl, p);
      ListPhraseHasRemind(p);
      ContainsTransitive(cl, p, "remind");
      assert "remind" in REMINDER_INDICATORS;
      assert Fires(RULES[8], command);
    }
    FirstMatch(command, 9);
  }

  lemma {:induction false} ListPhraseHasRemind(p: string)
    requires p in LIST_TERMS
    ensures Contains(p, "remind")
  {
    if p == "my reminders" {
      RemindInside("my ", "ers");
      assert p == "my " + "remind" + "ers";
    } else if p == "any reminders" {
      RemindInside("any ", "ers");
      assert p == "any " + "remind" + "ers";
    } else if p == "show reminders" {
      RemindInside("show ", "ers");
      assert p == "show " + "remind" + "ers";
    } else {
      assert p == "list reminders";
      RemindInside("list ", "ers");
      assert p == "list " + "remind" + "ers";
    }
  }

  lemma {:induction false} RemindInside(pre: string, post: string)
    ensures Contains(pre + "remind" + post, "remind")
  {
    var s := pre + "remind" + post;
    assert s[|pre|..|pre| + 6] == "remind";
    ContainsAt(s, "remind", |pre|);
  }

  /** A command that contains "hi" anywhere, as "this" and "which" do, is
      taken for a greeting before any other rule is tried. */
  lemma {:induction false} HiAnywhereGreets(command: string)
    requires Contains(Lower(command), "hi")
    ensures RouteOf(command) == Handled(Greeting)
  {
    assert "hi" in GREETING_INPUTS;
    assert !Blank(command) by {
      var i := ContainsWitness(Lower(command), "hi");
      assert Lower(command)[i] == 'h';
      StripEmptyIffBlank(command);
    }
    FirstMatch(command, 0);
  }

  lemma {:induction false} ShortSearchLast(command: string)
    ensures |RULES| == 11 && RULES[10] == ShortSearch
    ensures Fires(RULES[10], command) <==> ShortOrLongWorded(command)
  {
    assert Phrases(ShortSearch) == [];
  }

  /** Past every keyword rule, fewer than five words or a word longer than
      fifteen characters goes to the web search; anything else gets the
      default message. */
  lemma {:induction false} FallbackOrDefault(command: string)
    requires !Blank(command)
    requires forall j :: 0 <= j < 10 ==> !Fires(RULES[j], command)
    ensures ShortOrLongWorded(command) ==> RouteOf(command) == Handled(ShortSearch)
    ensures !ShortOrLongWorded(command) ==> RouteOf(command) == Default
  {
    ShortSearchLast(command);
    if ShortOrLongWorded(command) {
      FirstMatch(command, 10);
    } else {
      NothingFires(command);
      DefaultWhenNothingFires(command);
    }
  }

  lemma {:induction false} NothingFires(command: string)
    requires |RULES| == 11 && !Fires(RULES[10], command)
    requires forall j :: 0 <= j < 10 ==> !Fires(RULES[j], command)
    ensures forall j :: 0 <= j < |RULES| ==> !Fires(RULES[j], command)
  {
  }
}
