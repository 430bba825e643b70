# Personal assistant: command handling, arithmetic, reminders and news formatting

This project models the text-processing core of a small voice and web
personal assistant. One function, `process_command`, takes what the user
said and hands it to the first matching handler. The rules are tried in
this order:

- greeting;
- time;
- date;
- arithmetic;
- weather;
- comprehensive news;
- trending news;
- web search;
- setting a reminder;
- listing due reminders;
- a short-command search.

A reply that says nothing was understood comes last.

The model covers:

- the router and each handler's text logic:
  - the rule-based calculator `solve_math`;
  - the city extraction of the weather rule;
  - the stop-word cleaning of the search rules;
  - the reminder phrase extraction;
- the natural-language time parser `parse_reminder_time`;
- the SQLite reminder table, modelled as a class whose rows the handlers update;
- the news listings `_format_news_results` and `get_trending_news`;
- the article selection of `get_news_api_articles`;
- in the browser, the pure part of `script.js`:
  - message formatting: HTML escaping, linkifying, line breaks;
  - the theme toggle.

Some inputs are parameters instead of ambient state:

- the clock: `now`, an integer count of microseconds;
- the random greeting choice: `pick`;
- whether the database can be reached: `storageOk`.

Handlers whose answer comes from a network service (weather, web search,
news feeds) return a `Reply` tag naming the call and its argument.

Modules, one per file:

| file | module | models |
|---|---|---|
| text.dfy | `Text` | Python string methods used by the core: `lower`, `strip`, `split`, `find`, `replace`, `title`, `join` |
| decimal.dfy | `Decimal` | decimal literals as the regex `\d+\.?\d*` finds them, and `float()` |
| evaluator.dfy | `Evaluator` | the arithmetic expressions the calculator's final `eval` accepts |
| arithmetic.dfy | `Arithmetic` | `solve_math` |
| timeparse.dfy | `TimeParse` | `parse_reminder_time` |
| reminders.dfy | `Reminders` | `init_database`, `set_reminder`, `get_due_reminders` |
| queries.dfy | `Queries` | the query cleaning of `search_web`, `extract_city_from_query` |
| news.dfy | `News` | `get_news_api_articles` (demo catalogue and live merge), `_format_news_results`, `get_trending_news` |
| router.dfy | `Router` | the rule order of `process_command` |
| remindertext.dfy | `ReminderText` | the reminder rule's time-phrase regex and filler-word removal |
| assistant.dfy | `Assistant` | `process_command` and the replies of its handlers |
| browser.dfy | `Browser` | `formatMessageContent`, `toggleTheme`, `loadThemePreference` |

## Model

| member | source | states |
|---|---|---|
| Text.Lower | personal_assistant/agent.py:916 | lower-casing keeps the length and maps each character on its own |
| Text.Find | personal_assistant/agent.py:880 | `find` returns a position exactly when the needle occurs; the needle is at that position and at no earlier one |
| Text.Strip | personal_assistant/agent.py:977 | `strip` returns a text that neither starts nor ends with white space |
| Text.StripIsInner | personal_assistant/agent.py:977 | `strip` removes exactly the leading run of white space and white space at the end, keeping the inner text in place |
| Text.Words | personal_assistant/agent.py:369 | `split()` yields non-empty words without white space |
| Text.WordsCons | personal_assistant/agent.py:369 | white space, then a word, then white space or the end: the word comes first, then the words of the rest |
| Text.SplitOn | personal_assistant/agent.py:885 | `split(sep)` yields at least one part, and two or more exactly when the separator occurs |
| Text.SplitOnJoin | personal_assistant/agent.py:885 | joining the parts with the separator gives the text back, and no part holds the separator |
| Text.Title | personal_assistant/agent.py:271 | `title()` keeps the length, upper-cases each character not after a letter and lower-cases the others |
| Text.WordsEmptyIffBlank | personal_assistant/agent.py:913 | a text splits into no words exactly when it is all white space |
| Text.StripEmptyIffBlank | personal_assistant/agent.py:913 | a text strips to nothing exactly when it is all white space |
| Decimal.DigitRun | personal_assistant/agent.py:155 | the run of digits at the front is maximal: the next character is not a digit |
| Decimal.ScanLiteral | personal_assistant/agent.py:155 | a literal found by `\d+\.?\d*` takes the whole run of digits, the point exactly when one follows, and then the whole run of digits after it |
| Decimal.ScanLiteralIsFloat | personal_assistant/agent.py:155-167 | `float()` of the scanned text is the literal's value |
| Decimal.ParseFloat | personal_assistant/agent.py:167 | `float()` accepts only text that is not blank |
| Decimal.ParseFloatOfNat | personal_assistant/agent.py:167 | `float()` of a decimal numeral reads back the number it writes |
| Decimal.ScanNat | personal_assistant/agent.py:155 | the scanner reads a whole numeral followed by a non-digit as that number |
| Evaluator.Apply | personal_assistant/agent.py:249 | an operation fails exactly on division by zero, and a quotient times the divisor gives the dividend back |
| Evaluator.Expr | personal_assistant/agent.py:249 | a parsed expression consumes at least one character, all of them digits, operators, points or parentheses |
| Evaluator.Eval | personal_assistant/agent.py:248-252 | `eval` yields a value only for non-empty text made of expression characters |
| Evaluator.EvalRejectsForeign | personal_assistant/agent.py:248-252 | any other character makes the evaluation fail, so the calculator falls through to its last message |
| Evaluator.EvalOfNat | personal_assistant/agent.py:249-250 | a numeral evaluates to that whole number |
| Arithmetic.SolveMath | personal_assistant/agent.py:145-254 | the method that rewrites the query step by step agrees with the reference `Solve` for every query |
| Arithmetic.TryMultiply | personal_assistant/agent.py:151-172 | the multiply block: the product of all numbers found, else the split on '*' of the rewritten query, else the rewritten query for the next block |
| Arithmetic.TryAdd | personal_assistant/agent.py:174-193 | the add block: the sum of all numbers found, else the sum of the digit-only parts, else the rewritten query |
| Arithmetic.TrySubtract | personal_assistant/agent.py:195-217 | the subtract block: first minus the rest of the signed numbers, else the split on '-' with a leading '0' part for a leading minus |
| Arithmetic.TryDivide | personal_assistant/agent.py:219-245 | the divide block: the first two numbers, with the division-by-zero message when the second is zero |
| Arithmetic.ParseAll | personal_assistant/agent.py:188 | the result holds `float()` of each part, in order, and fails exactly when some part fails to convert |
| Arithmetic.MultiplyFoldsAll | personal_assistant/agent.py:152-160 | with a multiply trigger and two numbers, the answer is the product of all of them |
| Arithmetic.AddFoldsAll | personal_assistant/agent.py:175-181 | with no multiply trigger, an add trigger and two numbers, the answer is their sum |
| Arithmetic.SubtractFoldsAll | personal_assistant/agent.py:196-202 | otherwise, with a subtract trigger and two signed numbers, the answer is the first minus the sum of the rest |
| Arithmetic.SubtractFamily | personal_assistant/agent.py:151-202 | on a cleaned query without multiply or add triggers, a subtract trigger and two signed numbers give the first minus the sum of the rest |
| Arithmetic.SubtractFold | personal_assistant/agent.py:196-202 | the subtract block on its own folds the signed numbers as first minus the rest |
| Arithmetic.Untriggered | personal_assistant/agent.py:152-220 | a block whose trigger words are absent passes the query on unchanged |
| Arithmetic.DivideUsesFirstTwo | personal_assistant/agent.py:220-229 | division uses only the first two numbers found, and a zero divisor gives the error message |
| Arithmetic.SplitDivisionByZero | personal_assistant/agent.py:233-241 | the fallback split also reports division by zero |
| Arithmetic.SolveMessages | personal_assistant/agent.py:219-254 | the only messages the calculator gives are division by zero and not understood |
| Arithmetic.FoldsGiveNumbers | personal_assistant/agent.py:151-217 | the multiply, add and subtract blocks answer only with numbers |
| Arithmetic.DivideMessage | personal_assistant/agent.py:219-245 | the divide block's only message is division by zero |
| Arithmetic.AllFail | personal_assistant/agent.py:247-254 | when every block passes and `eval` fails, the answer is the not-understood message |
| Arithmetic.SignedNumbersMirrorNumbers | personal_assistant/agent.py:199 | `-?\d+\.?\d*` finds the same literals as `\d+\.?\d*`, each possibly negated |
| Arithmetic.MinusLiteral | personal_assistant/agent.py:199 | a minus sign before digits is taken into the signed number and skipped by the unsigned scan |
| Arithmetic.ProductWithZero | personal_assistant/agent.py:157-159 | a zero anywhere makes the product zero |
| Arithmetic.CleanOfPlain | personal_assistant/agent.py:149 | cleaning leaves a lower-case, stripped query without the removed phrases unchanged |
| Arithmetic.SymbolTriggers | personal_assistant/agent.py:152-220 | on text without letters, each block is triggered exactly by its operator symbols |
| Arithmetic.NumbersOfTwo | personal_assistant/agent.py:155 | two numerals around a non-digit separator are found as those two numbers |
| Arithmetic.TenOverZero | personal_assistant/agent.py:219-227 | "10 / 0" answers with the division-by-zero message |
| Arithmetic.TenMinusThree | personal_assistant/agent.py:196-202 | "10-3" answers 13: the signed scan reads "-3" and the fold subtracts it |
| Arithmetic.BoxesMultiply | personal_assistant/agent.py:152-160 | "6 boxes of 7" answers 42, because the 'x' of "boxes" is a multiply trigger |
| TimeParse.FirstMatch | personal_assistant/agent.py:719 | the leftmost position where the pattern matches |
| TimeParse.FirstMatchLeftmost | personal_assistant/agent.py:719 | no earlier position matches, and there is no match exactly when no position matches |
| TimeParse.SearchRelativeIsSearch | personal_assistant/agent.py:719 | the relative-time search is `re.search` of its pattern |
| TimeParse.SearchAtIsSearch | personal_assistant/agent.py:734 | the "at" search is `re.search` of its pattern |
| TimeParse.SearchClockIsSearch | personal_assistant/agent.py:759 | the clock search after "tomorrow" is `re.search` of its pattern |
| TimeParse.ClockAt | personal_assistant/agent.py:734-738 | the hour is the one or two digits at the front; the minutes are the two digits after a colon, or 0 without one |
| TimeParse.Checked | personal_assistant/agent.py:719-731 | a time is kept exactly when a `datetime` can hold it; otherwise the parser fails with an overflow |
| TimeParse.ReplaceClock | personal_assistant/agent.py:748 | `replace(hour, minute, 0, 0)` keeps the day and sets the time of day |
| TimeParse.AtToday | personal_assistant/agent.py:747-754 | an invalid hour or minute fails; otherwise the time has the requested clock and lies in the next 24 hours from now, moved to tomorrow only when already past, and the move overflows only on the last day a `datetime` can hold |
| TimeParse.OnDay | personal_assistant/agent.py:771 | the requested clock on the given day, failing for an invalid hour or minute |
| TimeParse.To24TwelveHourClock | personal_assistant/agent.py:740-745 | pm adds 12 below 12, 12 am is hour 0, no period keeps the hour |
| TimeParse.ParseEmpty | personal_assistant/agent.py:712-713 | an empty time phrase parses to nothing |
| TimeParse.ParseNoMatch | personal_assistant/agent.py:712-774 | the parser finds nothing exactly when the text is empty or no rule applies |
| TimeParse.RelativeAtFront | personal_assistant/agent.py:719-731 | a relative phrase at the front gives now plus the count of units, or the overflow failure past the last `datetime` |
| TimeParse.RelativePhrase | personal_assistant/agent.py:719-731 | "in N unit" is read as N times the unit's length, whatever the case of the text |
| TimeParse.RelativeFirst | personal_assistant/agent.py:718-731 | a relative phrase anywhere wins over the other rules, overflow included |
| TimeParse.AtRule | personal_assistant/agent.py:733-754 | without a relative phrase, an "at" clock is placed today or tomorrow |
| TimeParse.TomorrowAtClock | personal_assistant/agent.py:756-771 | "tomorrow" with a clock gives that clock on the next day, or the overflow failure when the next day cannot be held |
| TimeParse.TomorrowWithoutClock | personal_assistant/agent.py:756-772 | "tomorrow" without a clock gives 9:00 on the next day, or the overflow failure when the next day cannot be held |
| TimeParse.TomorrowDefault | personal_assistant/agent.py:756-772 | a "tomorrow" text without digits gives 9:00 on the next day, or the overflow failure when the next day cannot be held |
| TimeParse.NineTomorrow | personal_assistant/agent.py:772 | 9:00 tomorrow is nine hours after the start of the next day |
| TimeParse.UnitLengths | personal_assistant/agent.py:719-731 | minute, hour, day and week, with or without a plural s, have their lengths |
| TimeParse.NoDigitSearches | personal_assistant/agent.py:719-774 | without digits none of the three patterns matches |
| TimeParse.TwoDigitsBelowHundred | personal_assistant/agent.py:734 | a one- or two-digit hour is below 100 |
| Reminders.DueRows | personal_assistant/agent.py:830-831 | the rows selected are exactly the uncompleted rows due by now |
| Reminders.InsertByDue | personal_assistant/agent.py:831 | inserting keeps every row and adds the new one |
| Reminders.SortByDue | personal_assistant/agent.py:831 | `ORDER BY reminder_time` is a permutation |
| Reminders.SortInOrder | personal_assistant/agent.py:831 | the sorted rows are ordered by time, ties by insertion order |
| Reminders.DueInOrderSpec | personal_assistant/agent.py:830-835 | the due listing is ordered, a permutation of the due rows, and holds exactly the due rows |
| Reminders.ReminderStore.constructor | personal_assistant/agent.py:776-790 | a fresh table is empty and its first id is 1 |
| Reminders.ReminderStore.SetReminder | personal_assistant/agent.py:792-821 | on a database failure or a parser exception the table is unchanged and the error is returned; otherwise one uncompleted row is added at the parsed time, or one hour from now when no time is found and that hour can be held |
| Reminders.ReminderStore.Insert | personal_assistant/agent.py:810-813 | the INSERT appends one uncompleted row with the next id |
| Reminders.ReminderStore.GetDueReminders | personal_assistant/agent.py:823-851 | returns the texts of the due rows in time order and marks exactly those rows completed; on failure returns nothing and changes nothing |
| Reminders.MarkDoneKeepsIds | personal_assistant/agent.py:838-842 | marking keeps every row's id, text and time and only sets the completed flag |
| Reminders.CompletedMarksDue | personal_assistant/agent.py:837-842 | after listing, a row is completed exactly when it was completed or due |
| Reminders.SecondCall | personal_assistant/agent.py:830-842 | a later listing returns exactly the rows that fell due in between |
| Reminders.SecondCallEmpty | personal_assistant/agent.py:830-842 | listing twice at the same time returns nothing the second time |
| Reminders.NoneDue | personal_assistant/agent.py:830-831 | with no row due, nothing is selected |
| Reminders.ScheduledNotPast | personal_assistant/agent.py:747-754 | a parsed reminder time is never before now |
| Queries.Keep | personal_assistant/agent.py:369-370 | a word is kept exactly when it was in the list and its lower case is not a stop word |
| Queries.KeepInOrder | personal_assistant/agent.py:369-370 | the filter works piece by piece, keeping the order of the words, and keeps one word exactly when it is not a stop word |
| Queries.WordsOfJoin | personal_assistant/agent.py:369-371 | joining words with spaces and splitting again gives the words back |
| Queries.JoinEdges | personal_assistant/agent.py:369-371 | joined words neither start nor end with a space, and are empty only for no words |
| Queries.KeptWordsRejoined | personal_assistant/agent.py:369-371 | stripping the joined kept words changes nothing, and they split back into the kept words |
| Queries.SearchTermsWords | personal_assistant/agent.py:369-371 | the search terms are exactly the query's non-stop words |
| Queries.KeepEmpty | personal_assistant/agent.py:369-370 | nothing is kept exactly when every word is a stop word |
| Queries.AskWhatIffOnlyStopWords | personal_assistant/agent.py:369-374 | the search asks what to search for exactly when every word of the query is a stop word |
| Queries.AsksIffNothingKept | personal_assistant/agent.py:369-374 | the search asks exactly when no word is kept |
| Queries.PlanForAsks | personal_assistant/agent.py:373-374 | it asks exactly when the cleaned query is empty |
| Queries.NewsTopicSpec | personal_assistant/agent.py:382-384 | a news topic is never empty and, unless it is "top stories", holds no news stop word |
| Queries.WeatherInNamesRest | personal_assistant/agent.py:879-882 | "weather in X" names X, stripped, in its original case |
| Queries.CityIsOneWord | personal_assistant/agent.py:883-892 | without "weather in", the city is one word, empty, or the error |
| Queries.RaisesWhenNothingFollowsIn | personal_assistant/agent.py:883-889 | when only spaces follow the first "in", the handler raises |
| News.Take | personal_assistant/agent.py:581 | a slice `[:n]` is a prefix with at most n items, all of them when there are fewer |
| News.Matching | personal_assistant/agent.py:584-588 | the filter keeps exactly the catalogue articles whose title or description mentions a query word |
| News.MatchingInOrder | personal_assistant/agent.py:584-588 | the filter works piece by piece, keeping catalogue order, and keeps one article exactly when it mentions a query word |
| News.DemoFromCatalogue | personal_assistant/agent.py:577-589 | demo results come from the catalogue, at most n of them or 3, and a broad query gets the first n of the catalogue |
| News.DemoNarrowQuery | personal_assistant/agent.py:582-589 | a narrow query returns the first n matching articles in catalogue order when any match, and else the first three of the catalogue |
| News.TrendingQueryIsBroad | personal_assistant/agent.py:579-581 | the trending query is broad and returns the catalogue's first n articles |
| News.UsableOnly | personal_assistant/agent.py:604 | only articles with a title and a url are kept |
| News.UsableOnlyInOrder | personal_assistant/agent.py:604 | the filter works piece by piece, keeping order, and keeps one article exactly when it has a title and a url |
| News.FirstByTitle | personal_assistant/agent.py:643-649 | the deduplicated list has every title of the input exactly once, and only articles from the input |
| News.FirstByTitleInOrder | personal_assistant/agent.py:643-649 | the deduplicated articles come in the order their titles first appear |
| News.Dedup | personal_assistant/agent.py:643-649 | the loop with its set of seen titles computes the deduplicated list |
| News.FirstIndex | personal_assistant/agent.py:647 | the first article with a title |
| News.KeepsFirst | personal_assistant/agent.py:643-649 | the first article of each title is kept |
| News.DedupKeepsExactlyFirsts | personal_assistant/agent.py:643-649 | an article is kept exactly when it is the first with its title |
| News.LiveArticlesSpec | personal_assistant/agent.py:593-651 | the live result has no repeated title and only usable articles from the search or, for a headline query, the headlines; it has n of them unless fewer titles exist, each the first with its title, in list order |
| News.ItemBlocks | personal_assistant/agent.py:275-304 | one numbered block per result |
| News.FormatNewsResults | personal_assistant/agent.py:262-309 | the listing is the no-news message for no results, and else the header and the numbered blocks separated by rules |
| News.ListItems | personal_assistant/agent.py:275-309 | the loop that appends pieces builds the header and the blocks joined by the separator |
| News.AddItem | personal_assistant/agent.py:277-303 | appending one result adds exactly its block to the joined text |
| News.AppendToLast | personal_assistant/agent.py:281 | `formatted[-1] +=` adds the extra text at the end of the joined text |
| News.Snoc | personal_assistant/agent.py:299 | `formatted.append` adds the extra text at the end of the joined text |
| News.NewsHeaderChoice | personal_assistant/agent.py:269-273 | the "top stories" header is used exactly for the query "top stories", in any case |
| News.Rule | personal_assistant/agent.py:357 | the separator is a newline, 80 '=' and a newline |
| News.Preview | personal_assistant/agent.py:346 | content over 300 characters becomes its first 300 and "..."; shorter content is kept |
| News.TrendingEntries | personal_assistant/agent.py:324-353 | one numbered entry per article |
| News.FormatTrending | personal_assistant/agent.py:317-359 | the trending text is the failure message for no articles, and else the title and the entries with rules between them |
| News.JoinWithRules | personal_assistant/agent.py:321-359 | the loop and the final newline join build the title and the entries separated by rule lines |
| Router.FirstTrue | personal_assistant/agent.py:919-996 | the first rule that fires, and no earlier rule fires |
| Router.Outcomes | personal_assistant/agent.py:919-992 | each rule's test applied to the command |
| Router.FirstMatch | personal_assistant/agent.py:911-996 | a command goes to a rule exactly when it is not blank, the rule fires and no earlier rule fires |
| Router.RulesOrder | personal_assistant/agent.py:919-992 | the rules are tried in the order of the source |
| Router.RulesDistinct | personal_assistant/agent.py:919-992 | no rule appears twice |
| Router.DefaultWhenNothingFires | personal_assistant/agent.py:991-996 | the default reply comes exactly when the command is not blank and no rule fires |
| Router.BlankIffWhitespace | personal_assistant/agent.py:913-914 | "didn't catch that" comes exactly for empty or all-space commands |
| Router.DigitWordIsMath | personal_assistant/agent.py:929-931 | a command with a digit-only word goes to the calculator unless a greeting, time or date rule fires first |
| Router.DigitWordFiresMath | personal_assistant/agent.py:929-930 | a digit-only word fires the math rule |
| Router.ListNeverReached | personal_assistant/agent.py:960-985 | the list-reminders rule is never reached, because each of its phrases contains "remind" and the reminder rule fires first |
| Router.ListPhraseHasRemind | personal_assistant/agent.py:985 | every list phrase contains "remind" |
| Router.HiAnywhereGreets | personal_assistant/agent.py:919-920 | any command containing "hi", even inside a word, is answered with a greeting |
| Router.ShortSearchLast | personal_assistant/agent.py:992 | the last rule fires for fewer than five words or a word longer than 15 characters |
| Router.FallbackOrDefault | personal_assistant/agent.py:991-996 | when no other rule fires, a short command is searched and any other command gets the default reply |
| ReminderText.AtPhrase | personal_assistant/agent.py:967 | the "at" alternative matches at least "at", one space and a digit, and starts with "at" |
| ReminderText.InPhrase | personal_assistant/agent.py:967 | the "in" alternative matches at least "in N unit" and starts with "in" |
| ReminderText.PhraseAt | personal_assistant/agent.py:967 | the first alternative that matches, with a non-empty match |
| ReminderText.SearchPhrase | personal_assistant/agent.py:967 | `re.search` gives the leftmost match, and no earlier position matches |
| ReminderText.FirstWordAtIff | personal_assistant/agent.py:976 | the alternation takes the first listed word that matches here, ignoring case and ending on a word boundary, and fails exactly when none does |
| ReminderText.RemovedAtIff | personal_assistant/agent.py:976 | something is removed at a position exactly when it is a word boundary and a filler matches there, and its length is that filler's |
| ReminderText.ScrubFrom | personal_assistant/agent.py:976 | `re.sub` removing the fillers never makes the text longer |
| ReminderText.ScrubKeepsClean | personal_assistant/agent.py:976 | a text with no filler on a boundary is unchanged |
| ReminderText.FillerAloneRemoved | personal_assistant/agent.py:976 | a filler standing alone after white space or at the start is removed whole, and the scrubbed text ends with the scrubbed rest after it |
| ReminderText.PhraseRemoved | personal_assistant/agent.py:963-980 | the reminder text is the command without its time phrase, with every copy of the phrase after it removed, scrubbed and stripped; the time phrase is passed on |
| ReminderText.PhraseOnceRemoved | personal_assistant/agent.py:963-980 | with one copy of the phrase, the text is what surrounds it, scrubbed and stripped |
| ReminderText.PhraseAtAgree | personal_assistant/agent.py:967 | a match depends only on the characters it takes: any text starting with them matches too |
| ReminderText.ReminderRequest | personal_assistant/agent.py:963-980 | a request has a non-empty text, and its time phrase is the one found in the lower-cased command |
| ReminderText.AtPhraseTakesTrailingSpace | personal_assistant/agent.py:967 | the optional spaces before am/pm are matched even when no am or pm follows |
| ReminderText.TomorrowFirst | personal_assistant/agent.py:967-971 | a command starting with "tomorrow" has "tomorrow" as its phrase, even when an "at" clock follows |
| ReminderText.CapitalisedPhraseStays | personal_assistant/agent.py:969-971 | a phrase spelled with capitals in the command is not removed from the text |
| ReminderText.NoPhraseWholeCommand | personal_assistant/agent.py:969-980 | without a phrase, the text is the scrubbed command, and the assistant asks for one exactly when that is empty |
| Assistant.Bullets | personal_assistant/agent.py:988 | one bulleted line per reminder text |
| Assistant.Remind | personal_assistant/agent.py:960-982 | asks for a text and keeps the store when there is none; otherwise sets the reminder with the extracted time phrase |
| Assistant.ListDueReminders | personal_assistant/agent.py:985-989 | lists the due reminders with a header, or says none is pending, and marks them completed |
| Assistant.Dispatch | personal_assistant/agent.py:913-996 | each route gives its handler's reply; only the two reminder routes change the store |
| Assistant.ProcessCommand | personal_assistant/agent.py:911-996 | the reply and store change of `process_command` for the route the command takes |
| Assistant.GreetingFromResponses | personal_assistant/agent.py:118-120 | a greeting is one of the four greeting responses |
| Assistant.WeatherAnswers | personal_assistant/agent.py:934-936 | the weather rule raises, asks for a city, or reports on the extracted city, exactly as the extraction result says |
| Assistant.SearchNeedsThreeCharacters | personal_assistant/agent.py:947-957 | the search rule asks for more details exactly when the cleaned query has fewer than three characters, and otherwise searches it |
| Assistant.CleanQueryWords | personal_assistant/agent.py:949-950 | the cleaned query is exactly the command's non-stop words |
| Assistant.CleanQueryStripped | personal_assistant/agent.py:949-953 | stripping the cleaned query changes nothing |
| Assistant.DueListShowsEach | personal_assistant/agent.py:987-988 | every due reminder appears as a bulleted line in the listing |
| Browser.ReplaceCharRemoves | personal_assistant/static/js/script.js:307 | a global replace removes every occurrence of the character when the replacement lacks it |
| Browser.EscapeCons | personal_assistant/static/js/script.js:295-298 | the three chained replaces escape each character on its own |
| Browser.EscapeHasNoAngles | personal_assistant/static/js/script.js:295-298 | escaped text holds no '<' and no '>' |
| Browser.UnescapeEscape | personal_assistant/static/js/script.js:295-298 | the escaping can be undone: decoding the entities gives the text back |
| Browser.NonSpaceEnd | personal_assistant/static/js/script.js:302 | `[^\s]+` takes the whole run of non-space characters, up to a space or the end |
| Browser.UrlAt | personal_assistant/static/js/script.js:301-304 | a link found starts with its scheme, is a run of non-space characters and ends at a space or the end |
| Browser.UrlAtIff | personal_assistant/static/js/script.js:301-304 | a link starts at a position exactly when "http://" or "https://" is there and a non-space character follows it |
| Browser.SchemeAtIff | personal_assistant/static/js/script.js:301 | the scheme found is "http://" or "https://" exactly when the text has it there |
| Browser.LinkifyCopies | personal_assistant/static/js/script.js:301-304 | text in which no link starts is copied unchanged |
| Browser.LinkifyWrapsLink | personal_assistant/static/js/script.js:301-304 | the first link, with no link starting before it, becomes one anchor after the text before it, and linkifying goes on after it |
| Browser.LinkifyWithoutLinks | personal_assistant/static/js/script.js:301-304 | text without a link is unchanged |
| Browser.FormatEmptyIffFalsy | personal_assistant/static/js/script.js:292 | the result is empty exactly for missing or empty content |
| Browser.FormatHasNoNewline | personal_assistant/static/js/script.js:307 | no newline is left in the formatted message |
| Browser.PlainTextEscapedOnly | personal_assistant/static/js/script.js:291-310 | text without links or newlines is only escaped, and decoding gives it back |
| Browser.LinkTextHasNoAngles | personal_assistant/static/js/script.js:295-304 | a link inside escaped text holds no '<' or '>', so the anchor cannot open a tag |
| Browser.ToggleFlips | personal_assistant/static/js/script.js:377 | the new theme is light exactly when the current one is dark, and dark otherwise |
| Browser.ToggleTwice | personal_assistant/static/js/script.js:377 | toggling twice restores a light or dark theme |
| Browser.IconMatchesTheme | personal_assistant/static/js/script.js:377-385 | the sun icon shows for the dark theme and the moon for the light one |
| Browser.SavedThemeRestored | personal_assistant/static/js/script.js:389-394 | the saved theme is restored on load, and light is the default |

## Left out

- Speech input and output (`speak`, `listen`, pyttsx3, speech_recognition) are not modelled. They are I/O.
- The WolframAlpha query at the start of `solve_math` is not modelled. The model takes the path without an API key.
- `get_time` and `get_date` are not rendered. The `TellTime` and `TellDate` replies carry `now`, because `strftime` output is presentation.
- `get_weather` is not modelled beyond its empty-city message. The pyowm call is external, so the reply is `WeatherReport(city)`.
- The spaCy parse in `extract_city_from_query` is not modelled. Its result is never used.
- `search_web` is modelled only up to its plan: ask, news search or web search. The page scraping, `fetch_article_content` and the listing of web results are network I/O.
- `get_google_news` calls `get_news_api_articles` with its own defaults. It is answered by the `NewsSearch(topic)` tag.
- The network fetches of `get_news_api_articles` are not modelled. The headlines and the search results are parameters; a failed request is an empty list.
- The texts of the demo catalogue are not reproduced. The catalogue is a parameter.
- News articles carry the published date as an already formatted label. Date parsing and formatting are not modelled.
- `eval` is not modelled. A restricted evaluator of `+ - * / ( ) .` and digits stands for the expressions it accepts; any other input is an evaluation failure.
- Floating-point numbers are modelled as exact reals. Python's `repr` of a float is not modelled: `MathReply.Number` carries the value and whether it is shown as an integer.
- `datetime` is an integer number of microseconds since 1 January of year 1. Days start at multiples of 24 hours, and time zones and daylight saving are not modelled. The range up to the end of year 9999 is modelled: a result past it is the `OutOfRange` failure, which stands for `OverflowError`.
- The confirmation text of `set_reminder` carries the time as a number, not its `strftime` rendering.
- SQLite compares ISO time strings. The model compares the times as numbers and orders ties by id (insertion order); SQLite leaves the order of equal times unspecified.
- The database is a class with a list of rows. `storageOk` stands for any exception from the database; on failure nothing is written.
- Reminders.ReminderStore.GetDueReminders: the second `datetime.now()` inside the call is taken to be the same `now` as the caller's.
- `get_reminders` and the in-memory `reminders` list are not modelled. Nothing in the core calls them.
- The random choice of `greet` is the parameter `pick`.
- The Flask routes (app.py) and the demo script are not part of this model.
- In the browser, DOM updates, fetch, speech and localStorage access are left out. Stored values are parameters.
- Lower-casing, `\w` and IGNORECASE are modelled for ASCII letters only; Python maps every Unicode letter.
- White space is modelled in full. `Text.IsSpace` is the set of `str.isspace`, which is also what Python's `\s` matches and what `strip` and `split()` remove. `Browser.JsSpace` is JavaScript's `\s`, which differs from it.
- Text.IsDigit: only the ASCII digits 0-9 are digits. Python's `\d`, `str.isdigit`, `int()` and `float()` also accept other Unicode decimal digits, such as Arabic-Indic ones; the model treats those as non-digits.
- Decimal.ParseFloat: only plain decimal notation is accepted. `float()` also accepts "inf", "infinity" and "nan" in any case, exponents such as "1e3", underscores between digits and non-ASCII digits; the model rejects all of these. So "inf times 2", which Python answers with inf through the split on '*', and "nan divided by 0", which Python answers with the division-by-zero message through the split on '/', both get the not-understood message here.
- ReminderText.AtPhrase: the contract gives a lower bound on the match length and the text it starts with. The exact length follows from the definition's steps (`\s+`, one or two digits, optional `:dd`, `\s*`, optional am/pm) and is not restated as a postcondition.
- ReminderText.InPhrase: as for AtPhrase, the exact length of "in N unit" with an optional plural s is given by the definition's steps only.
- ReminderText.PhraseAt: the alternation order ("at" first, then "in", then "tomorrow") is given by the definition only; its postcondition states only that a match is non-empty and fits.
- Browser.FormatMessageContent: double quotes are not escaped, as in the source, so a link holding '"' would end the `href` attribute. No property about attributes is stated.
