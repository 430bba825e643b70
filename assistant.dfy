/**
 * `process_command`: the route a command takes, what each handler answers,
 * and the one handler with an effect, which writes to the reminder store.
 * The clock, the random greeting and the database's availability are
 * parameters; the handlers that call the network answer with a tag naming
 * the call.
 */
module Assistant {
  import opened Text
  import opened Router
  import opened Queries
  import opened ReminderText
  import opened TimeParse
  import opened Reminders
  import Arithmetic

  const DIDNT_CATCH := "I didn't catch that. Could you please repeat?"
  const GREETING_RESPONSES: seq<string> := ["Hello!", "Hi there!", "Hey!", "Hi! How can I help you today?"]
  const SPECIFY_CITY := "Please specify a city for the weather, like 'weather in New York'."
  const MORE_DETAILS := "I need more details to search. What specifically are you looking for?"
  const WHAT_TO_REMIND := "What would you like me to remind you about?"
  const NO_PENDING := "You don't have any pending reminders."
  const DUE_HEADER := "\U{1F514} Reminders:\n"
  const BULLET := "• "
  const DEFAULT_REPLY := "I'm not sure how to help with that. You can ask me about the time, weather, to set reminders, do math, or search the web."

  /** The words the search rule drops before searching. */
  const COMMAND_STOP_WORDS: seq<string> := ["search", "for", "find", "about", "look", "up", "google"]

  /** What the assistant answers. */
  datatype Reply =
    | Say(text: string)
    | TellTime(now: int)                    // `get_time()`, rendered with strftime
    | TellDate(now: int)                    // `get_date()`, rendered with strftime
    | MathAnswer(answer: Arithmetic.MathReply)
    | WeatherReport(city: string)           // `get_weather(city)` for a named city
    | CityError                             // the IndexError of `extract_city_from_query`
    | TrendingReport(count: nat)            // `get_trending_news(count)`
    | SearchResult(query: string)           // `search_web(query)`, which acts on `PlanSearch(query)`
    | ReminderReply(result: SetReply)       // `set_reminder(text, timeStr)`

  /** The search rule's query: the command's words without the stop words. */
  function CleanQuery(command: string): string {
    Join(Keep(Words(command), COMMAND_STOP_WORDS), " ")
  }

  /** `greet()`, with `pick` standing for the random choice. */
  function GreetReply(pick: nat): Reply {
    Say(GREETING_RESPONSES[pick % |GREETING_RESPONSES|])
  }

  /** The weather rule: `get_weather(extract_city_from_query(command))`. */
  function WeatherReply(command: string): Reply {
    match ExtractCity(command)
    case Raised => CityError
    case City(c) => if c == [] then Say(SPECIFY_CITY) else WeatherReport(c)
  }

  /** The search rule: the cleaned query, searched unless it is too short. */
  function SearchReply(command: string): Reply {
    SearchFor(CleanQuery(command))
  }

  function SearchFor(clean: string): Reply {
    if |Strip(clean)| < 3 then Say(MORE_DETAILS) else SearchResult(clean)
  }

  /** The answer of every rule that leaves the reminder store alone. */
  function Answer(rule: Rule, command: string, now: int, pick: nat): Reply
    requires rule != ReminderCreate && rule != ReminderList
  {
    match rule
    case Greeting => GreetReply(pick)
    case TimeQuery => TellTime(now)
    case DateQuery => TellDate(now)
    case MathQuery => MathAnswer(Arithmetic.Solve(command))
    case WeatherQuery => WeatherReply(command)
    case ComprehensiveNews => TrendingReport(7)
    case TrendingNews => TrendingReport(5)
    case SearchQuery => SearchReply(command)
    case ShortSearch => SearchResult(command)
  }

  /** The list of due reminders as the list rule prints it. */
  function DueListText(texts: seq<string>): string {
    if texts == [] then NO_PENDING
    else DUE_HEADER + Join(Bullets(texts), "\n\n")
  }

  function Bullets(texts: seq<string>): (bs: seq<string>)
    ensures |bs| == |texts|
    ensures forall i :: 0 <= i < |texts| ==> bs[i] == BULLET + texts[i]
  {
    seq(|texts|, i requires 0 <= i < |texts| => BULLET + texts[i])
  }

  /**
   * What the reminder rule does with the request it extracted: asks for a
   * text when there is none, and otherwise sets the reminder: on success
   * the store gains one uncompleted row at the parsed time, or an hour
   * from now when no time is recognised; on failure nothing changes.
   */
  twostate predicate Reminded(store: ReminderStore, req: Option<Request>, now: int, storageOk: bool, reply: Reply)
    reads store
  {
    match req
    case None => reply == Say(WHAT_TO_REMIND) && Kept(store)
    case Some(r) =>
      var parsed := ParseTime(r.timeStr, now);
      reply.ReminderReply? &&
      (!storageOk || parsed.Raised() ==> reply.result == CouldNotSet && Kept(store)) &&
      (storageOk && parsed.At? ==>
        reply.result == ScheduledAt(parsed.time, r.text) &&
        store.rows == old(store.rows) + [Row(old(store.nextId), r.text, parsed.time, false)] &&
        store.nextId == old(store.nextId) + 1) &&
      (storageOk && parsed.NoMatch? && InRange(now + HOUR) ==>
        reply.result == InOneHour(r.text) &&
        store.rows == old(store.rows) + [Row(old(store.nextId), r.text, now + 3_600_000_000, false)] &&
        store.nextId == old(store.nextId) + 1) &&
      (storageOk && parsed.NoMatch? && !InRange(now + HOUR) ==> reply.result == CouldNotSet && Kept(store))
  }

  /** The store as it was. */
  twostate predicate Kept(store: ReminderStore)
    reads store
  {
    store.rows == old(store.rows) && store.nextId == old(store.nextId)
  }

  /** What the list rule does: consumes the due reminders and lists them. */
  twostate predicate Listed(store: ReminderStore, now: int, storageOk: bool, reply: Reply)
    reads store
  {
    var texts := if storageOk then Texts(DueInOrder(old(store.rows), now)) else [];
    reply == Say(DueListText(texts)) &&
    store.rows == (if storageOk then Completed(old(store.rows), now) else old(store.rows)) &&
    store.nextId == old(store.nextId)
  }

  method Remind(store: ReminderStore, req: Option<Request>, now: int, storageOk: bool) returns (reply: Reply)
    requires store.Valid()
    modifies store
    ensures store.Valid()
    ensures Reminded(store, req, now, storageOk, reply)
  {
    match req {
      case None =>
        reply := Say(WHAT_TO_REMIND);
      case Some(r) =>
        var result := store.SetReminder(r.text, r.timeStr, now, storageOk);
        reply := ReminderReply(result);
    }
  }

  method ListDueReminders(store: ReminderStore, now: int, storageOk: bool) returns (reply: Reply)
    requires store.Valid()
    modifies store
    ensures store.Valid()
    ensures Listed(store, now, storageOk, reply)
  {
    var texts := store.GetDueReminders(now, storageOk);
    reply := Say(DueListText(texts));
  }

  /** The handler of `route`. */
  method Dispatch(store: ReminderStore, route: Route, command: string, now: int, pick: nat, storageOk: bool)
    returns (reply: Reply)
    requires store.Valid()
    modifies store
    ensures store.Valid()
    ensures route == Blank_ ==> reply == Say(DIDNT_CATCH) && unchanged(store)
    ensures route == Default ==> reply == Say(DEFAULT_REPLY) && unchanged(store)
    ensures route.Handled? && route.rule != ReminderCreate && route.rule != ReminderList ==>
      reply == Answer(route.rule, command, now, pick) && unchanged(store)
    ensures route == Handled(ReminderCreate) ==> Reminded(store, ReminderRequest(command), now, storageOk, reply)
    ensures route == Handled(ReminderList) ==> Listed(store, now, storageOk, reply)
  {
    match route {
      case Blank_ =>
        reply := Say(DIDNT_CATCH);
      case Default =>
        reply := Say(DEFAULT_REPLY);
      case Handled(rule) =>
        if rule == ReminderCreate {
          reply := Remind(store, ReminderRequest(command), now, storageOk);
        } else if rule == ReminderList {
          reply := ListDueReminders(store, now, storageOk);
        } else {
          reply := Answer(rule, command, now, pick);
        }
    }
  }

  /** `process_command(command)` at time `now`. */
  method ProcessCommand(store: ReminderStore, command: string, now: int, pick: nat, storageOk: bool)
    returns (reply: Reply)
    requires store.Valid()
    modifies store
    ensures store.Valid()
    ensures RouteOf(command) == Blank_ ==> reply == Say(DIDNT_CATCH) && unchanged(store)
    ensures RouteOf(command) == Default ==> reply == Say(DEFAULT_REPLY) && unchanged(store)
    ensures RouteOf(command).Handled? && RouteOf(command).rule != ReminderCreate && RouteOf(command).rule != ReminderList ==>
      reply == Answer(RouteOf(command).rule, command, now, pick) && unchanged(store)
    ensures RouteOf(command) == Handled(ReminderCreate) ==> Reminded(store, ReminderRequest(command), now, storageOk, reply)
    ensures RouteOf(command) == Handled(ReminderList) ==> Listed(store, now, storageOk, reply)
  {
    reply := Dispatch(store, RouteOf(command), command, now, pick, storageOk);
  }

  // ---------------------------------------------------------------------
  // Properties

  /** A greeting is one of the four greeting responses. */
  lemma {:induction false} GreetingFromResponses(pick: nat)
    ensures GreetReply(pick).Say? && GreetReply(pick).text in GREETING_RESPONSES
  {
    var k := pick % |GREETING_RESPONSES|;
    assert GREETING_RESPONSES[k] in GREETING_RESPONSES;
  }

  /** The weather rule answers for the city named, asks for one when none
      is found, and fails when the split after "in" leaves no word. */
  lemma {:induction false} WeatherAnswers(command: string)
    ensures ExtractCity(command) == Raised <==> WeatherReply(command) == CityError
    ensures ExtractCity(command) == City([]) <==> WeatherReply(command) == Say(SPECIFY_CITY)
    ensures WeatherReply(command).WeatherReport? <==> ExtractCity(command).City? && ExtractCity(command).name != []
    ensures WeatherReply(command).WeatherReport? ==> WeatherReply(command).city == ExtractCity(command).name
  {
  }

  /**
   * The search rule asks for details exactly when the query it would send
   * has fewer than three characters; otherwise the query is the command's
   * words without the stop words, in order.
   */
  lemma {:induction false} SearchNeedsThreeCharacters(command: string)
    ensures SearchReply(command).Say? <==> |CleanQuery(command)| < 3
    ensures SearchReply(command).Say? ==> SearchReply(command).text == MORE_DETAILS
    ensures !SearchReply(command).Say? ==>
      SearchReply(command) == SearchResult(CleanQuery(command)) &&
      Words(CleanQuery(command)) == Keep(Words(command), COMMAND_STOP_WORDS)
  {
    SearchReplyShort(command);
    CleanQueryWords(command);
  }

  lemma {:induction false} SearchReplyShort(command: string)
    ensures |CleanQuery(command)| < 3 ==> SearchReply(command) == Say(MORE_DETAILS)
    ensures |CleanQuery(command)| >= 3 ==> SearchReply(command) == SearchResult(CleanQuery(command))
  {
    CleanQueryStrippedLength(command);
    SearchForStripped(CleanQuery(command));
  }

  lemma {:induction false} CleanQueryStrippedLength(command: string)
    ensures |Strip(CleanQuery(command))| == |CleanQuery(command)|
  {
    CleanQueryStripped(command);
  }

  lemma {:induction false} SearchForStripped(clean: string)
    requires |Strip(clean)| == |clean|
    ensures |clean| < 3 ==> SearchFor(clean) == Say(MORE_DETAILS)
    ensures |clean| >= 3 ==> SearchFor(clean) == SearchResult(clean)
  {
  }

  /** The cleaned query has no surrounding spaces. */
  lemma {:induction false} CleanQueryStripped(command: string)
    ensures Strip(CleanQuery(command)) == CleanQuery(command)
  {
    KeptWordsRejoined(Words(command), COMMAND_STOP_WORDS);
  }

  /** The words of the cleaned query are the command's words without the
      stop words. */
  lemma {:induction false} CleanQueryWords(command: string)
    ensures Words(CleanQuery(command)) == Keep(Words(command), COMMAND_STOP_WORDS)
  {
    KeptWordsRejoined(Words(command), COMMAND_STOP_WORDS);
  }

  /** Every due reminder appears in the list, after a bullet. */
  lemma {:induction false} DueListShowsEach(texts: seq<string>, i: nat)
    requires i < |texts|
    ensures Contains(DueListText(texts), BULLET + texts[i])
  {
    var bs := Bullets(texts);
    JoinContains(bs, "\n\n", i);
    ContainsSuffixOf(DUE_HEADER, Join(bs, "\n\n"), bs[i]);
  }

  /** A joined list contains each of its items. */
  lemma {:induction false} JoinContains(ws: seq<string>, sep: string, i: nat)
    requires i < |ws|
    ensures Contains(Join(ws, sep), ws[i])
    decreases |ws|
  {
    if |ws| == 1 {
      ContainsAt(ws[0], ws[0], 0);
    } else if i == 0 {
      ContainsAt(ws[0], ws[0], 0);
      assert ws[0] + sep + Join(ws[1..], sep) == ws[0] + (sep + Join(ws[1..], sep));
      ContainsPrefixOf(ws[0], sep + Join(ws[1..], sep), ws[0]);
    } else {
      JoinContains(ws[1..], sep, i - 1);
      ContainsSuffixOf(ws[0] + sep, Join(ws[1..], sep), ws[i]);
    }
  }
}
