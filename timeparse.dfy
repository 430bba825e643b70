/** The natural-language time parser (`parse_reminder_time`,
    personal_assistant/agent.py). Three rules are tried in order on the
    lower-cased phrase: a relative offset ("in 5 minutes"), a clock time
    after "at" ("at 3 pm", "at 15:30"), and "tomorrow" with an optional
    clock time. Times are whole microseconds on a naive clock, counted
    from midnight of day 0, and the current time is a parameter. */
module TimeParse {
  import opened Text
  import opened Decimal

  /** Lengths in microseconds: 60 seconds, 60 minutes, 24 hours, 7 days. */
  const MINUTE: int := 60_000_000
  const HOUR: int := 3_600_000_000
  const DAY: int := 86_400_000_000
  const WEEK: int := 604_800_000_000

  /** The optional `am`/`pm` suffix of a clock time. */
  datatype Period = NoPeriod | Am | Pm

  /** A clock time as written: one or two hour digits, two optional minute
      digits after a colon, and the optional suffix. */
  datatype Clock = Clock(hour: nat, minute: nat, period: Period)

  /** `datetime.max` lies in the last day of year 9999. Day 0 being
      1 January of year 1, that is day 3_652_058, so every `datetime` is a
      count of microseconds below `END_OF_TIME`. */
  const END_OF_TIME: int := 3_652_059 * DAY

  /** A count of microseconds that a `datetime` can hold. */
  predicate InRange(t: int) { 0 <= t < END_OF_TIME }

  /** A parsed time. `Invalid` is the `ValueError` that `datetime.replace`
      raises for an hour above 23 or a minute above 59; `OutOfRange` is the
      `OverflowError` of adding a `timedelta` that leads past the end of
      year 9999. */
  datatype TimeResult = At(time: int) | NoMatch | Invalid | OutOfRange {
    /** The parser raised an exception. */
    predicate Raised() { Invalid? || OutOfRange? }
  }

  /** `now + timedelta(...)` landing at `t`: the time, or the overflow. */
  function Checked(t: int): (r: TimeResult)
    ensures r.At? <==> InRange(t)
    ensures r.At? ==> r.time == t
    ensures !r.At? ==> r.OutOfRange?
  {
    if InRange(t) then At(t) else OutOfRange
  }

  // ---------------------------------------------------------------------
  // Searching for the leftmost match

  /** The leftmost position of `t` at which the matcher `m` succeeds, as
      `re.search` finds it. */
  function FirstMatch<T>(t: string, m: string -> Option<T>): (r: Option<nat>)
    ensures r.Some? ==> r.value <= |t| && m(t[r.value..]).Some?
    decreases |t|
  {
    if m(t).Some? then Some(0)
    else if t == [] then None
    else
      match FirstMatch(t[1..], m)
      case None => None
      case Some(k) => assert t[1..][k..] == t[k + 1..]; Some(k + 1)
  }

  /** The search finds the leftmost match: nothing matches before the
      position it returns, and when it returns nothing, nothing matches
      anywhere. */
  lemma {:induction false} FirstMatchLeftmost<T>(t: string, m: string -> Option<T>)
    ensures FirstMatch(t, m).Some? ==> forall j :: 0 <= j < FirstMatch(t, m).value ==> m(t[j..]).None?
    ensures FirstMatch(t, m).None? <==> forall j :: 0 <= j <= |t| ==> m(t[j..]).None?
    decreases |t|
  {
    if m(t).Some? {
      assert t[0..] == t;
    } else if t == [] {
      assert forall j :: 0 <= j <= |t| ==> t[j..] == t;
    } else {
      FirstMatchLeftmost(t[1..], m);
      assert forall j :: 1 <= j <= |t| ==> t[j..] == t[1..][j - 1..];
      assert t[0..] == t;
    }
  }

  /** What the matcher yields at the leftmost position where it succeeds. */
  function Search<T>(t: string, m: string -> Option<T>): Option<T> {
    match FirstMatch(t, m)
    case None => None
    case Some(i) => m(t[i..])
  }

  // ---------------------------------------------------------------------
  // The three patterns

  /** The unit word at the front of `x` and its length in microseconds. */
  function UnitLength(x: string): (r: Option<int>)
    ensures r.Some? ==> r.value > 0
  {
    if StartsWith(x, "minute") then Some(MINUTE)
    else if StartsWith(x, "hour") then Some(HOUR)
    else if StartsWith(x, "day") then Some(DAY)
    else if StartsWith(x, "week") then Some(WEEK)
    else None
  }

  /** `in\s+(\d+)\s+(minute|hour|day|week)s?` matched at the front of `t`,
      giving the offset it denotes. Each run is maximal, because the next
      element of the pattern cannot match its characters. */
  function MatchRelative(t: string): (r: Option<int>)
    ensures r.Some? ==> r.value >= 0
  {
    if StartsWith(t, "in") then RelativeAfterIn(t[2..]) else None
  }

  /** `\s+(\d+)\s+(minute|hour|day|week)s?` */
  function RelativeAfterIn(s: string): (r: Option<int>)
    ensures r.Some? ==> r.value >= 0
  {
    var a := SpaceRun(s);
    if a == 0 then None else RelativeCount(s[a..])
  }

  /** `(\d+)\s+(minute|hour|day|week)s?` */
  function RelativeCount(u: string): (r: Option<int>)
    ensures r.Some? ==> r.value >= 0
  {
    var d := DigitRun(u);
    if d == 0 then None else RelativeUnit(NatValue(u[..d]), u[d..])
  }

  /** `\s+(minute|hour|day|week)s?` after a count of `n`. */
  function RelativeUnit(n: nat, w: string): (r: Option<int>)
    ensures r.Some? ==> r.value >= 0
  {
    var b := SpaceRun(w);
    if b == 0 then None
    else match UnitLength(w[b..])
      case None => None
      case Some(len) => Some(n * len)
  }

  /** `(\d{1,2})(?::(\d{2}))?\s*(am|pm)?` matched at the front of `u`,
      which starts with a digit. The match always succeeds once the first
      digit is there, because everything after it is optional. */
  function ClockAt(u: string): (c: Clock)
    requires u != [] && IsDigit(u[0])
    ensures c.hour < 100 && c.minute < 100
    // the hour is the one or two digits at the front
    ensures c.hour == if HourDigits(u) == 2 then 10 * DigitValue(u[0]) + DigitValue(u[1]) else DigitValue(u[0])
    // the minutes are the two digits after a colon, or 0 without one
    ensures var w := u[HourDigits(u)..];
      c.minute == if HasMinutes(w) then 10 * DigitValue(w[1]) + DigitValue(w[2]) else 0
  {
    var n := HourDigits(u);
    assert AllDigits(u[..n]);
    TwoDigitValue(u[..n]);
    var w := u[n..];
    var colon := HasMinutes(w);
    var rest := if colon then w[3..] else w;
    var x := rest[SpaceRun(rest)..];
    var period := if StartsWith(x, "am") then Am else if StartsWith(x, "pm") then Pm else NoPeriod;
    TwoDigitsBelowHundred(u[..n]);
    Clock(NatValue(u[..n]), if colon then Minutes(w) else 0, period)
  }

  /** `\d{1,2}`: how many digits of the hour a clock time starting with a
      digit has. */
  function HourDigits(u: string): (n: nat)
    requires u != [] && IsDigit(u[0])
    ensures 1 <= n <= 2 && n <= |u|
  {
    if |u| > 1 && IsDigit(u[1]) then 2 else 1
  }

  /** `:` and two digits at the front of `w`. */
  predicate HasMinutes(w: string) {
    |w| >= 3 && w[0] == ':' && IsDigit(w[1]) && IsDigit(w[2])
  }

  function Minutes(w: string): (m: nat)
    requires HasMinutes(w)
    ensures m == 10 * DigitValue(w[1]) + DigitValue(w[2])
  {
    TwoDigitValue(w[1..3]);
    NatValue(w[1..3])
  }

  /** The clock pattern where it may start: at a digit. */
  function MatchClock(u: string): Option<Clock> {
    if u != [] && IsDigit(u[0]) then Some(ClockAt(u)) else None
  }

  /** `at\s+` followed by the clock pattern, matched at the front of `t`. */
  function MatchAt(t: string): Option<Clock> {
    if !StartsWith(t, "at") then None
    else
      var a := SpaceRun(t[2..]);
      if a == 0 then None else MatchClock(t[2 + a..])
  }

  // ---------------------------------------------------------------------
  // The searches the parser runs

  /** A first-order copy of `Search` for each pattern of the parser; each
      is proved to agree with `Search` below. */
  function SearchRelative(t: string): (r: Option<int>)
    ensures r.Some? ==> r.value >= 0
    decreases |t|
  {
    if MatchRelative(t).Some? then MatchRelative(t)
    else if t == [] then None
    else SearchRelative(t[1..])
  }

  function SearchAt(t: string): Option<Clock>
    decreases |t|
  {
    if MatchAt(t).Some? then MatchAt(t)
    else if t == [] then None
    else SearchAt(t[1..])
  }

  function SearchClock(t: string): Option<Clock>
    decreases |t|
  {
    if MatchClock(t).Some? then MatchClock(t)
    else if t == [] then None
    else SearchClock(t[1..])
  }

  /** One step of `Search` past a position where the pattern fails. */
  lemma {:induction false} SearchStep<T>(t: string, m: string -> Option<T>)
    requires t != [] && m(t).None?
    ensures Search(t, m) == Search(t[1..], m)
  {
    match FirstMatch(t[1..], m)
    case None =>
    case Some(k) => assert t[1..][k..] == t[k + 1..];
  }

  lemma {:induction false} SearchRelativeIsSearch(t: string)
    ensures SearchRelative(t) == Search(t, MatchRelative)
    decreases |t|
  {
    if MatchRelative(t).Some? {
      assert t[0..] == t;
    } else if t != [] {
      SearchStep(t, MatchRelative);
      SearchRelativeIsSearch(t[1..]);
    }
  }

  lemma {:induction false} SearchAtIsSearch(t: string)
    ensures SearchAt(t) == Search(t, MatchAt)
    decreases |t|
  {
    if MatchAt(t).Some? {
      assert t[0..] == t;
    } else if t != [] {
      SearchStep(t, MatchAt);
      SearchAtIsSearch(t[1..]);
    }
  }

  lemma {:induction false} SearchClockIsSearch(t: string)
    ensures SearchClock(t) == Search(t, MatchClock)
    decreases |t|
  {
    if MatchClock(t).Some? {
      assert t[0..] == t;
    } else if t != [] {
      SearchStep(t, MatchClock);
      SearchClockIsSearch(t[1..]);
    }
  }

  // ---------------------------------------------------------------------
  // Clock arithmetic

  /** 12-hour to 24-hour conversion as the source does it: `pm` adds 12 to
      an hour below 12, `am` turns 12 into 0, anything else is kept. */
  function To24(c: Clock): nat {
    if c.period == Pm && c.hour < 12 then c.hour + 12
    else if c.period == Am && c.hour == 12 then 0
    else c.hour
  }

  /** `t.replace(hour=h, minute=m, second=0, microsecond=0)`: the same day
      as `t`, at `h:m:00`. */
  function ReplaceClock(t: int, h: nat, m: nat): (r: int)
    requires h < 24 && m < 60
    ensures r / DAY == t / DAY && r % DAY == h * HOUR + m * MINUTE
  {
    (t / DAY) * DAY + h * HOUR + m * MINUTE
  }

  /** The at-rule: today at the given clock time, moved one day forward
      when that has already passed. */
  function AtToday(c: Clock, now: int): (r: TimeResult)
    ensures r.Invalid? <==> To24(c) > 23 || c.minute > 59
    ensures r.At? ==> now <= r.time < now + DAY
    ensures r.At? ==> r.time % DAY == To24(c) * HOUR + c.minute * MINUTE
    ensures r.At? ==> r.time == ReplaceClock(now, To24(c), c.minute) || r.time == ReplaceClock(now, To24(c), c.minute) + DAY
    // moving to tomorrow overflows only on the last day
    ensures r.OutOfRange? <==> !r.Invalid? && ReplaceClock(now, To24(c), c.minute) < now && !InRange(ReplaceClock(now, To24(c), c.minute) + DAY)
    ensures !r.NoMatch?
  {
    var h := To24(c);
    if h > 23 || c.minute > 59 then Invalid
    else
      var t := ReplaceClock(now, h, c.minute);
      if t < now then Checked(t + DAY) else At(t)
  }

  /** The tomorrow rule: the given day at the given clock time. */
  function OnDay(c: Clock, day: int): (r: TimeResult)
    ensures r.Invalid? <==> To24(c) > 23 || c.minute > 59
    ensures r.At? ==> r.time / DAY == day / DAY && r.time % DAY == To24(c) * HOUR + c.minute * MINUTE
    ensures !r.NoMatch?
  {
    var h := To24(c);
    if h > 23 || c.minute > 59 then Invalid else At(ReplaceClock(day, h, c.minute))
  }

  /** `parse_reminder_time(text)` at the time `now`. */
  function ParseTime(text: string, now: int): TimeResult {
    if text == [] then NoMatch else ParseLowered(Lower(text), now)
  }

  /** The three rules, in order, on the lower-cased text. */
  function ParseLowered(t: string, now: int): TimeResult {
    match SearchRelative(t)
    case Some(offset) => Checked(now + offset)
    case None => ClockRules(t, now)
  }

  function ClockRules(t: string, now: int): TimeResult {
    match SearchAt(t)
    case Some(c) => AtToday(c, now)
    case None => TomorrowRule(t, now)
  }

  function TomorrowRule(t: string, now: int): TimeResult {
    if !Contains(t, "tomorrow") then NoMatch
    else if !InRange(now + DAY) then OutOfRange
    else match SearchClock(t)
      case Some(c) => OnDay(c, now + DAY)
      case None => At(ReplaceClock(now + DAY, 9, 0))
  }

  // ---------------------------------------------------------------------
  // Properties

  lemma {:induction false} TwoDigitsBelowHundred(ds: string)
    requires AllDigits(ds) && |ds| <= 2
    ensures NatValue(ds) < 100
  {
    if ds != [] {
      TwoDigitValue(ds);
    }
  }

  /** The value of one or two digits. */
  lemma {:induction false} TwoDigitValue(ds: string)
    requires AllDigits(ds) && 1 <= |ds| <= 2
    ensures NatValue(ds) == if |ds| == 2 then 10 * DigitValue(ds[0]) + DigitValue(ds[1]) else DigitValue(ds[0])
  {
    assert ds[..1][..0] == [];
    if |ds| == 2 {
      assert NatValue(ds[..1]) == DigitValue(ds[0]);
    } else {
      assert ds[..0] == [];
    }
  }

  /** The conversion agrees with the 12-hour clock: for an hour from 1 to
      12, `am` gives `hour mod 12` and `pm` gives `hour mod 12 + 12`. An hour
      without a suffix is read as a 24-hour one. */
  lemma {:induction false} To24TwelveHourClock(c: Clock)
    ensures 1 <= c.hour <= 12 && c.period == Am ==> To24(c) == c.hour % 12
    ensures 1 <= c.hour <= 12 && c.period == Pm ==> To24(c) == c.hour % 12 + 12
    ensures c.period == NoPeriod ==> To24(c) == c.hour
    ensures 1 <= c.hour <= 12 && c.period != NoPeriod ==> To24(c) <= 23
  {
  }

  /** Nothing to parse, nothing parsed. */
  lemma {:induction false} ParseEmpty(now: int)
    ensures ParseTime("", now) == NoMatch
  {
  }

  /** `None` comes back exactly when no rule applies: the text is empty, or
      none of the relative pattern, the at-pattern and the word "tomorrow"
      occurs in it. Every rule that applies gives a time or an error. */
  lemma {:induction false} ParseNoMatch(text: string, now: int)
    ensures ParseTime(text, now) == NoMatch <==>
      text == [] || (SearchRelative(Lower(text)).None? && SearchAt(Lower(text)).None?
                     && !Contains(Lower(text), "tomorrow"))
  {
  }

  /** A text whose lower-cased form starts with the relative pattern is
      `now` plus the offset, whatever follows, or the overflow when that is
      past the end of year 9999; the clock rules are not looked at. */
  lemma {:induction false} RelativeAtFront(text: string, now: int)
    requires MatchRelative(Lower(text)).Some?
    ensures ParseTime(text, now) == Checked(now + MatchRelative(Lower(text)).value)
  {
    var t := Lower(text);
    assert StartsWith(t, "in");
    assert |text| == |t| >= 2;
    assert SearchRelative(t) == MatchRelative(t);
    RelativeFoundFirst(t, now);
  }

  /** The rules on a lower-cased text in which the relative pattern is
      found. */
  lemma {:induction false} RelativeFoundFirst(t: string, now: int)
    requires SearchRelative(t).Some?
    ensures ParseLowered(t, now) == Checked(now + SearchRelative(t).value)
  {
  }

  /** "in N <unit>": a run of digits N and any lower-case text that starts
      with a unit word match the relative pattern with N units. */
  lemma {:induction false} RelativePhrase(ds: string, unit: string)
    requires ds != [] && AllDigits(ds) && UnitLength(unit).Some? && NoUpper(unit)
    ensures MatchRelative(Lower("in " + ds + " " + unit)) == Some(NatValue(ds) * UnitLength(unit).value)
  {
    PhraseIsLower(ds, unit);
    RelativePhraseMatches(ds, unit);
  }

  /** Lower-casing leaves the relative phrase as it is. */
  lemma {:induction false} PhraseIsLower(ds: string, unit: string)
    requires AllDigits(ds) && NoUpper(unit)
    ensures Lower("in " + ds + " " + unit) == "in " + ds + " " + unit
  {
    var t := "in " + ds + " " + unit;
    forall i | 0 <= i < |t|
      ensures !IsUpper(t[i])
    {
      if i >= 4 + |ds| {
        assert t[i] == unit[i - 4 - |ds|];
      } else if i >= 3 {
        assert t[i] == (ds + " ")[i - 3];
      }
    }
    LowerOfLower(t);
  }

  /** The relative rule wins over the clock rules whenever it matches,
      overflow included. */
  lemma {:induction false} RelativeFirst(text: string, now: int)
    requires text != [] && SearchRelative(Lower(text)).Some?
    ensures ParseTime(text, now) == Checked(now + SearchRelative(Lower(text)).value)
  {
    ParseNonEmpty(text, now);
  }

  lemma {:induction false} ParseNonEmpty(text: string, now: int)
    requires text != []
    ensures ParseTime(text, now) == ParseLowered(Lower(text), now)
  {
  }

  /** When no relative phrase is found but "at" and a clock time are, the
      result is that clock time today, or tomorrow once it has passed:
      within the next day, at that time of day, or `Invalid` for an hour
      above 23 or a minute above 59. */
  lemma {:induction false} AtRule(text: string, now: int)
    requires text != []
    requires SearchRelative(Lower(text)).None? && SearchAt(Lower(text)).Some?
    ensures ParseTime(text, now) == AtToday(SearchAt(Lower(text)).value, now)
  {
    ParseNonEmpty(text, now);
    AtFoundFirst(Lower(text), now);
  }

  lemma {:induction false} AtFoundFirst(t: string, now: int)
    requires SearchRelative(t).None? && SearchAt(t).Some?
    ensures ParseLowered(t, now) == AtToday(SearchAt(t).value, now)
  {
  }

  /** "tomorrow" with a clock time somewhere, and neither earlier rule
      applying: that clock time on the day after `now`, unless `now` is on
      the last day a `datetime` can hold. */
  lemma {:induction false} TomorrowAtClock(text: string, now: int)
    requires text != [] && Contains(Lower(text), "tomorrow")
    requires SearchRelative(Lower(text)).None? && SearchAt(Lower(text)).None?
    requires SearchClock(Lower(text)).Some?
    ensures ParseTime(text, now) ==
      if InRange(now + DAY) then OnDay(SearchClock(Lower(text)).value, now + DAY) else OutOfRange
  {
    ParseNonEmpty(text, now);
    ClockFoundTomorrow(Lower(text), now);
  }

  lemma {:induction false} ClockFoundTomorrow(t: string, now: int)
    requires Contains(t, "tomorrow")
    requires SearchRelative(t).None? && SearchAt(t).None? && SearchClock(t).Some?
    ensures ParseLowered(t, now) == if InRange(now + DAY) then OnDay(SearchClock(t).value, now + DAY) else OutOfRange
  {
  }

  /** "in", one space, a run of digits, one space and a unit word match the
      relative pattern with the offset they denote. */
  lemma {:induction false} RelativePhraseMatches(ds: string, unit: string)
    requires ds != [] && AllDigits(ds) && UnitLength(unit).Some?
    ensures MatchRelative("in " + ds + " " + unit) == Some(NatValue(ds) * UnitLength(unit).value)
  {
    var t := "in " + ds + " " + unit;
    assert t[..2] == "in";
    assert t[2..] == " " + (ds + " " + unit);
    SpaceThenText(ds + " " + unit);
    assert (" " + (ds + " " + unit))[1..] == ds + " " + unit;
    RelativeCountOf(ds, unit);
  }

  /** One space, then text that does not start with a space. */
  lemma {:induction false} SpaceThenText(s: string)
    requires s != [] && !IsSpace(s[0])
    ensures SpaceRun(" " + s) == 1
  {
    assert (" " + s)[1..] == s;
  }

  lemma {:induction false} RelativeCountOf(ds: string, unit: string)
    requires ds != [] && AllDigits(ds) && UnitLength(unit).Some?
    ensures RelativeCount(ds + " " + unit) == Some(NatValue(ds) * UnitLength(unit).value)
  {
    var u := ds + (" " + unit);
    assert ds + " " + unit == u;
    DigitRunPrefix(ds, " " + unit);
    assert u[..|ds|] == ds;
    assert u[|ds|..] == " " + unit;
    UnitStartsWithLetter(unit);
    SpaceThenText(unit);
    assert (" " + unit)[1..] == unit;
  }

  /** A unit word starts with a letter. */
  lemma {:induction false} UnitStartsWithLetter(w: string)
    requires UnitLength(w).Some?
    ensures w != [] && IsLower(w[0])
  {
  }

  /** The unit words, singular or plural, and their lengths. */
  lemma {:induction false} UnitLengths()
    ensures UnitLength("minute") == UnitLength("minutes") == Some(MINUTE)
    ensures UnitLength("hour") == UnitLength("hours") == Some(HOUR)
    ensures UnitLength("day") == UnitLength("days") == Some(DAY)
    ensures UnitLength("week") == UnitLength("weeks") == Some(WEEK)
  {
    assert "days"[..4][0] != "hour"[0];
    assert "days"[..3] == "day";
    assert "week"[..4][0] != "hour"[0];
    assert "weeks"[..4][0] != "hour"[0];
    assert "weeks"[..3][0] != "day"[0];
  }

  /** "tomorrow" with no digit anywhere is the next day at 09:00, that is
      day `now / DAY + 1` at nine hours. */
  lemma {:induction false} TomorrowDefault(text: string, now: int)
    requires Contains(Lower(text), "tomorrow")
    requires forall i :: 0 <= i < |text| ==> !IsDigit(text[i])
    ensures ParseTime(text, now) == if InRange(now + DAY) then At(ReplaceClock(now + DAY, 9, 0)) else OutOfRange
  {
    var t := Lower(text);
    assert text != [] by {
      var k := ContainsWitness(t, "tomorrow");
    }
    assert forall i :: 0 <= i < |t| ==> !IsDigit(t[i]);
    NoDigitSearches(t);
    TomorrowWithoutClock(text, now);
  }

  /** The tomorrow rule when no earlier rule and no clock time applies. */
  lemma {:induction false} TomorrowWithoutClock(text: string, now: int)
    requires text != [] && Contains(Lower(text), "tomorrow")
    requires SearchRelative(Lower(text)).None? && SearchAt(Lower(text)).None?
    requires SearchClock(Lower(text)).None?
    ensures ParseTime(text, now) == if InRange(now + DAY) then At(ReplaceClock(now + DAY, 9, 0)) else OutOfRange
  {
  }

  /** That default is the day after `now`, at nine hours. */
  lemma {:induction false} NineTomorrow(now: int)
    ensures ReplaceClock(now + DAY, 9, 0) == (now / DAY + 1) * DAY + 9 * HOUR
  {
  }

  /** No pattern is found in text without digits. */
  lemma {:induction false} NoDigitSearches(t: string)
    requires forall i :: 0 <= i < |t| ==> !IsDigit(t[i])
    ensures SearchRelative(t).None? && SearchAt(t).None? && SearchClock(t).None?
    decreases |t|
  {
    NoDigitNoMatch(t);
    if t != [] {
      NoDigitSearches(t[1..]);
    }
  }

  /** None of the patterns matches text without digits. */
  lemma {:induction false} NoDigitNoMatch(s: string)
    requires forall i :: 0 <= i < |s| ==> !IsDigit(s[i])
    ensures MatchRelative(s).None? && MatchAt(s).None? && MatchClock(s).None?
  {
    if StartsWith(s, "in") {
      var a := SpaceRun(s[2..]);
      var u := s[2 + a..];
      assert u == [] || u[0] == s[2 + a];
    }
    if StartsWith(s, "at") {
      var a := SpaceRun(s[2..]);
      var u := s[2 + a..];
      assert u == [] || u[0] == s[2 + a];
    }
  }
}
