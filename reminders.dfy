// The reminder table of the assistant: a sequence of rows held by a store
// object, `set_reminder` (insert one row) and `get_due_reminders` (select the
// due rows in time order and mark each of them completed).
//
// Times are the integer microsecond counts of the TimeParse module; the
// table's ISO-8601 text column compares in the same order as those counts.

module Reminders {
  import opened Text
  import opened TimeParse

  /** One row of the `reminders` table. */
  datatype Row = Row(id: nat, text: string, due: int, completed: bool)

  /** What `set_reminder` answers. */
  datatype SetReply =
    | ScheduledAt(time: int, text: string)   // "I'll remind you at <time> on <day>: <text>"
    | InOneHour(text: string)                // "I'll remind you in 1 hour: <text>"
    | CouldNotSet                            // "I couldn't set that reminder. ..."

  const IN_ONE_HOUR_PREFIX := "I'll remind you in 1 hour: "
  const COULD_NOT_SET := "I couldn't set that reminder. Please try again with a specific time."

  /** The WHERE clause of the due query. */
  predicate IsDue(r: Row, now: int) {
    r.due <= now && !r.completed
  }

  /** Row ids grow with insertion order (AUTOINCREMENT). */
  predicate IdsIncreasing(rows: seq<Row>) {
    forall i, j :: 0 <= i < j < |rows| ==> rows[i].id < rows[j].id
  }

  /** The rows the WHERE clause selects, in table order. */
  function DueRows(rows: seq<Row>, now: int): (d: seq<Row>)
    ensures forall r :: r in d <==> r in rows && IsDue(r, now)
    ensures |d| <= |rows|
  {
    if rows == [] then []
    else (if IsDue(rows[0], now) then [rows[0]] else []) + DueRows(rows[1..], now)
  }

  /** ORDER BY reminder_time; rows with equal times keep table order. */
  predicate Before(a: Row, b: Row) {
    a.due < b.due || (a.due == b.due && a.id < b.id)
  }

  predicate InOrder(s: seq<Row>) {
    forall i, j :: 0 <= i < j < |s| ==> Before(s[i], s[j])
  }

  /** Places `r` in front of the first row of `s` that is not earlier. */
  function InsertByDue(r: Row, s: seq<Row>): (t: seq<Row>)
    ensures multiset(t) == multiset(s) + multiset{r}
  {
    if s == [] || r.due <= s[0].due then [r] + s
    else
      assert s == [s[0]] + s[1..];
      [s[0]] + InsertByDue(r, s[1..])
  }

  /** A stable insertion sort by due time. */
  function SortByDue(s: seq<Row>): (t: seq<Row>)
    ensures multiset(t) == multiset(s)
  {
    if s == [] then []
    else
      assert s == [s[0]] + s[1..];
      InsertByDue(s[0], SortByDue(s[1..]))
  }

  /** The result of the SELECT: the due rows, earliest first. */
  function DueInOrder(rows: seq<Row>, now: int): seq<Row> {
    SortByDue(DueRows(rows, now))
  }

  function Texts(s: seq<Row>): seq<string> {
    seq(|s|, i requires 0 <= i < |s| => s[i].text)
  }

  function IdsOf(s: seq<Row>): set<nat> {
    set r | r in s :: r.id
  }

  /** `UPDATE reminders SET is_completed = 1 WHERE id IN ids`. */
  function MarkDone(rows: seq<Row>, ids: set<nat>): seq<Row> {
    seq(|rows|, i requires 0 <= i < |rows| =>
      if rows[i].id in ids then rows[i].(completed := true) else rows[i])
  }

  /** The table after `get_due_reminders` at time `now`. */
  function Completed(rows: seq<Row>, now: int): seq<Row> {
    MarkDone(rows, IdsOf(DueInOrder(rows, now)))
  }

  // ---------------------------------------------------------------------
  // The store

  class ReminderStore {
    var rows: seq<Row>
    var nextId: nat

    ghost predicate Valid()
      reads this
    {
      IdsIncreasing(rows) && forall i :: 0 <= i < |rows| ==> rows[i].id < nextId
    }

    /** `init_database` on a fresh file: an empty table. */
    constructor()
      ensures Valid() && rows == [] && nextId == 1
    {
      rows := [];
      nextId := 1;
    }

    /**
     * `set_reminder(text, timeStr)` at time `now`; `storageOk` is false when
     * the database cannot be opened or written. An empty `timeStr` stands
     * for a missing one.
     */
    method SetReminder(text: string, timeStr: string, now: int, storageOk: bool) returns (reply: SetReply)
      requires Valid()
      modifies this
      ensures Valid()
      ensures !storageOk || ParseTime(timeStr, now).Raised() ==>
        reply == CouldNotSet && rows == old(rows) && nextId == old(nextId)
      ensures storageOk && ParseTime(timeStr, now).At? ==>
        reply == ScheduledAt(ParseTime(timeStr, now).time, text) &&
        rows == old(rows) + [Row(old(nextId), text, ParseTime(timeStr, now).time, false)] &&
        nextId == old(nextId) + 1
      ensures storageOk && ParseTime(timeStr, now).NoMatch? && InRange(now + HOUR) ==>
        reply == InOneHour(text) &&
        rows == old(rows) + [Row(old(nextId), text, now + 3_600_000_000, false)] &&
        nextId == old(nextId) + 1
      ensures storageOk && ParseTime(timeStr, now).NoMatch? && !InRange(now + HOUR) ==>
        reply == CouldNotSet && rows == old(rows) && nextId == old(nextId)
    {
      if !storageOk {
        return CouldNotSet;
      }
      var due: int;
      // a missing time (the empty string) parses as no match
      var parsed := ParseTime(timeStr, now);
      match parsed {
        case Invalid =>
          return CouldNotSet;
        case OutOfRange =>
          return CouldNotSet;
        case NoMatch =>
          if !InRange(now + HOUR) {
            // the default `now + timedelta(hours=1)` overflows
            return CouldNotSet;
          }
          due := now + HOUR;
          reply := InOneHour(text);
        case At(t) =>
          due := t;
          reply := ScheduledAt(t, text);
      }
      Insert(text, due);
    }

    /** `INSERT INTO reminders (reminder_text, reminder_time)`. */
    method Insert(text: string, due: int)
      requires Valid()
      modifies this
      ensures Valid()
      ensures rows == old(rows) + [Row(old(nextId), text, due, false)] && nextId == old(nextId) + 1
    {
      rows := rows + [Row(nextId, text, due, false)];
      nextId := nextId + 1;
    }

    /**
     * `get_due_reminders()` at time `now`: the texts of the due rows,
     * earliest first, each of those rows marked completed. With
     * `storageOk` false nothing is committed and the answer is empty.
     */
    method GetDueReminders(now: int, storageOk: bool) returns (texts: seq<string>)
      requires Valid()
      modifies this
      ensures Valid()
      ensures !storageOk ==> texts == [] && rows == old(rows) && nextId == old(nextId)
      ensures storageOk ==>
        texts == Texts(DueInOrder(old(rows), now)) &&
        rows == Completed(old(rows), now) && nextId == old(nextId)
    {
      if !storageOk {
        return [];
      }
      var due := DueInOrder(rows, now);
      var k := 0;
      while k < |due|
        invariant 0 <= k <= |due|
        invariant rows == MarkDone(old(rows), IdsOf(due[..k]))
        invariant nextId == old(nextId)
      {
        MarkDoneTwice(old(rows), IdsOf(due[..k]), {due[k].id});
        IdsOfSnoc(due, k);
        rows := MarkDone(rows, {due[k].id});
        k := k + 1;
      }
      assert due[..k] == due;
      MarkDoneKeepsIds(old(rows), IdsOf(due));
      texts := Texts(due);
    }
  }

  // ---------------------------------------------------------------------
  // Lemmas

  lemma {:induction false} MarkDoneTwice(rows: seq<Row>, a: set<nat>, b: set<nat>)
    ensures MarkDone(MarkDone(rows, a), b) == MarkDone(rows, a + b)
  {
  }

  lemma {:induction false} IdsOfSnoc(s: seq<Row>, k: nat)
    requires k < |s|
    ensures IdsOf(s[..k + 1]) == IdsOf(s[..k]) + {s[k].id}
  {
    assert s[..k + 1] == s[..k] + [s[k]];
  }

  /** Marking rows completed changes no id, text or time. */
  lemma {:induction false} MarkDoneKeepsIds(rows: seq<Row>, ids: set<nat>)
    ensures |MarkDone(rows, ids)| == |rows|
    ensures forall i :: 0 <= i < |rows| ==>
      MarkDone(rows, ids)[i].id == rows[i].id && MarkDone(rows, ids)[i].text == rows[i].text &&
      MarkDone(rows, ids)[i].due == rows[i].due
    ensures IdsIncreasing(rows) ==> IdsIncreasing(MarkDone(rows, ids))
  {
  }

  lemma {:induction false} DueRowsIncreasing(rows: seq<Row>, now: int)
    requires IdsIncreasing(rows)
    ensures IdsIncreasing(DueRows(rows, now))
  {
    if rows != [] {
      var tail := rows[1..];
      assert IdsIncreasing(tail) by {
        forall i, j | 0 <= i < j < |tail| ensures tail[i].id < tail[j].id {
          assert tail[i] == rows[i + 1] && tail[j] == rows[j + 1];
        }
      }
      DueRowsIncreasing(tail, now);
      var d := DueRows(tail, now);
      forall x | x in d ensures rows[0].id < x.id {
        var j :| 0 <= j < |tail| && tail[j] == x;
        assert x == rows[j + 1];
      }
    }
  }

  lemma {:induction false} InsertInOrder(r: Row, s: seq<Row>)
    requires InOrder(s)
    requires forall x :: x in s ==> r.id < x.id
    ensures InOrder(InsertByDue(r, s))
  {
    if s == [] || r.due <= s[0].due {
      InsertFirst(r, s);
    } else {
      var rest := s[1..];
      assert InOrder(rest) by {
        forall i, j | 0 <= i < j < |rest| ensures Before(rest[i], rest[j]) {
          assert rest[i] == s[i + 1] && rest[j] == s[j + 1];
        }
      }
      InsertInOrder(r, rest);
      InsertLater(r, s);
    }
  }

  lemma {:induction false} InsertFirst(r: Row, s: seq<Row>)
    requires InOrder(s) && (s == [] || r.due <= s[0].due)
    requires forall x :: x in s ==> r.id < x.id
    ensures InOrder([r] + s)
  {
    var t := [r] + s;
    forall i, j | 0 <= i < j < |t| ensures Before(t[i], t[j]) {
      if i == 0 {
        assert t[j] == s[j - 1];
        if j > 1 {
          assert Before(s[0], s[j - 1]);
        }
      } else {
        assert t[i] == s[i - 1] && t[j] == s[j - 1];
      }
    }
  }

  lemma {:induction false} InsertLater(r: Row, s: seq<Row>)
    requires InOrder(s) && s != [] && s[0].due < r.due
    requires InOrder(InsertByDue(r, s[1..]))
    ensures InOrder(InsertByDue(r, s))
  {
    var rest := s[1..];
    var u := InsertByDue(r, rest);
    var t := [s[0]] + u;
    assert InsertByDue(r, s) == t;
    HeadBeforeInserted(r, s);
    forall i, j | 0 <= i < j < |t| ensures Before(t[i], t[j]) {
      if i == 0 {
        assert t[j] == u[j - 1];
      } else {
        assert t[i] == u[i - 1] && t[j] == u[j - 1];
      }
    }
  }

  lemma {:induction false} HeadBeforeInserted(r: Row, s: seq<Row>)
    requires InOrder(s) && s != [] && s[0].due < r.due
    ensures forall x :: x in InsertByDue(r, s[1..]) ==> Before(s[0], x)
  {
    var rest := s[1..];
    var u := InsertByDue(r, rest);
    forall x | x in u ensures Before(s[0], x) {
      assert x in multiset(u);
      if x != r {
        assert x in multiset(rest);
        var j :| 0 <= j < |rest| && rest[j] == x;
        assert Before(s[0], s[j + 1]);
      }
    }
  }

  /** With increasing ids the sort orders by time, ties by insertion order. */
  lemma {:induction false} SortInOrder(s: seq<Row>)
    requires IdsIncreasing(s)
    ensures InOrder(SortByDue(s))
  {
    if s != [] {
      var rest := s[1..];
      assert IdsIncreasing(rest) by {
        forall i, j | 0 <= i < j < |rest| ensures rest[i].id < rest[j].id {
          assert rest[i] == s[i + 1] && rest[j] == s[j + 1];
        }
      }
      SortInOrder(rest);
      var u := SortByDue(rest);
      forall x | x in u ensures s[0].id < x.id {
        assert x in multiset(rest);
        var j :| 0 <= j < |rest| && rest[j] == x;
        assert x == s[j + 1];
      }
      InsertInOrder(s[0], u);
    }
  }

  /**
   * What `get_due_reminders` returns: exactly the due rows, each once,
   * ordered by time and, for equal times, by insertion.
   */
  lemma {:induction false} DueInOrderSpec(rows: seq<Row>, now: int)
    requires IdsIncreasing(rows)
    ensures InOrder(DueInOrder(rows, now))
    ensures multiset(DueInOrder(rows, now)) == multiset(DueRows(rows, now))
    ensures forall r :: r in DueInOrder(rows, now) <==> r in rows && IsDue(r, now)
  {
    DueRowsIncreasing(rows, now);
    SortInOrder(DueRows(rows, now));
    forall r ensures r in DueInOrder(rows, now) <==> r in DueRows(rows, now) {
      assert r in DueInOrder(rows, now) <==> r in multiset(DueInOrder(rows, now));
    }
  }

  /** Two rows with the same id are the same row. */
  lemma {:induction false} SameIdSameRow(rows: seq<Row>, x: Row, i: int)
    requires IdsIncreasing(rows) && x in rows && 0 <= i < |rows| && x.id == rows[i].id
    ensures x == rows[i]
  {
    var j :| 0 <= j < |rows| && rows[j] == x;
    assert !(j < i) && !(i < j);
  }

  /**
   * `get_due_reminders` marks exactly the due rows completed and leaves every
   * other row as it was.
   */
  lemma {:induction false} CompletedMarksDue(rows: seq<Row>, now: int)
    requires IdsIncreasing(rows)
    ensures |Completed(rows, now)| == |rows|
    ensures forall i :: 0 <= i < |rows| ==>
      Completed(rows, now)[i] == if IsDue(rows[i], now) then rows[i].(completed := true) else rows[i]
  {
    DueInOrderSpec(rows, now);
    var d := DueInOrder(rows, now);
    forall i | 0 <= i < |rows| ensures rows[i].id in IdsOf(d) <==> IsDue(rows[i], now) {
      if rows[i].id in IdsOf(d) {
        var x :| x in d && x.id == rows[i].id;
        SameIdSameRow(rows, x, i);
      }
    }
  }

  /**
   * A later call at time `later` returns exactly the rows that were pending
   * and fell due after `now`; the rows returned by the first call never
   * come back.
   */
  lemma {:induction false} SecondCall(rows: seq<Row>, now: int, later: int)
    requires IdsIncreasing(rows) && now <= later
    ensures forall r :: r in DueInOrder(Completed(rows, now), later) <==>
      r in rows && !r.completed && now < r.due <= later
  {
    CompletedMarksDue(rows, now);
    var c := Completed(rows, now);
    MarkDoneKeepsIds(rows, IdsOf(DueInOrder(rows, now)));
    DueInOrderSpec(c, later);
    forall r | r in c && IsDue(r, later) ensures r in rows && !r.completed && now < r.due <= later {
      var i :| 0 <= i < |c| && c[i] == r;
      assert !IsDue(rows[i], now);
      assert r == rows[i];
    }
    forall r | r in rows && !r.completed && now < r.due <= later ensures r in c && IsDue(r, later) {
      var i :| 0 <= i < |rows| && rows[i] == r;
      assert c[i] == r;
    }
  }

  /** An immediate second call returns nothing. */
  lemma {:induction false} SecondCallEmpty(rows: seq<Row>, now: int)
    requires IdsIncreasing(rows)
    ensures DueInOrder(Completed(rows, now), now) == []
  {
    CompletedMarksDue(rows, now);
    NoneDue(Completed(rows, now), now);
  }

  lemma {:induction false} NoneDue(rows: seq<Row>, now: int)
    requires forall i :: 0 <= i < |rows| ==> !IsDue(rows[i], now)
    ensures DueRows(rows, now) == []
  {
    if rows != [] {
      NoneDue(rows[1..], now);
    }
  }

  /** A time `set_reminder` schedules is never in the past. */
  lemma {:induction false} ScheduledNotPast(text: string, now: int)
    ensures ParseTime(text, now).At? ==> ParseTime(text, now).time >= now
  {
    if text != [] {
      var t := Lower(text);
      match SearchRelative(t)
      case Some(offset) =>
      case None =>
        match SearchAt(t)
        case Some(c) =>
        case None =>
          if Contains(t, "tomorrow") {
            match SearchClock(t)
            case Some(c) =>
              var r := OnDay(c, now + DAY);
              if r.At? {
                NextDayAfter(now, r.time);
              }
            case None =>
              NextDayAfter(now, ReplaceClock(now + DAY, 9, 0));
          }
    }
  }

  /** Any time on the day after `now` is later than `now`. */
  lemma {:induction false} NextDayAfter(now: int, t: int)
    requires t / 86_400_000_000 == (now + 86_400_000_000) / 86_400_000_000
    ensures t > now
  {
    var q := now / 86_400_000_000;
    assert (now + 86_400_000_000) / 86_400_000_000 == q + 1;
    assert t >= (q + 1) * 86_400_000_000;
  }
}
