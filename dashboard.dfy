/**
 * The dashboard page (pages/Dashboard.tsx): it parses event dates, finds the
 * Monday of the viewed week and counts the events of each day of that week
 * for the trend chart. The current time is passed in, and the generic
 * `new Date(text)` parse is an opaque partial function supplied by the caller.
 */
module Dashboard {
  import opened Common
  import opened Types
  import opened Calendar

  // ---------------------------------------------------------------------
  // parseCustomDate
  // ---------------------------------------------------------------------

  /** `new Date(text)` for any text: `None` where the result is an invalid date. */
  type Fallback = string -> Option<DateTime>

  /** The regular-expression class `\s`: ECMAScript WhiteSpace and LineTerminator code points. */
  predicate IsJsSpace(c: char)
  {
    || c == '\t' || c == '\U{B}' || c == '\U{C}' || c == ' ' || c == '\U{A0}' || c == '\U{FEFF}'
    || c == '\n' || c == '\r' || c == '\U{2028}' || c == '\U{2029}'
    || c == '\U{1680}' || ('\U{2000}' <= c <= '\U{200A}') || c == '\U{202F}' || c == '\U{205F}' || c == '\U{3000}'
  }

  /** Length of a match of `(\d{2})\.(\d{2})\.(\d{4})\s(\d{2}):(\d{2})`. */
  const PatternLength := 16

  /** The date pattern matches `s` starting at index `i`. */
  predicate MatchesAt(s: string, i: nat)
  {
    && i + PatternLength <= |s|
    && IsDigit(s[i]) && IsDigit(s[i + 1]) && s[i + 2] == '.'
    && IsDigit(s[i + 3]) && IsDigit(s[i + 4]) && s[i + 5] == '.'
    && IsDigit(s[i + 6]) && IsDigit(s[i + 7]) && IsDigit(s[i + 8]) && IsDigit(s[i + 9])
    && IsJsSpace(s[i + 10])
    && IsDigit(s[i + 11]) && IsDigit(s[i + 12]) && s[i + 13] == ':'
    && IsDigit(s[i + 14]) && IsDigit(s[i + 15])
  }

  /** `String.prototype.match` of the unanchored pattern: the leftmost match at or after `from`. */
  function FirstMatch(s: string, from: nat): (r: Option<nat>)
    decreases |s| - from
    ensures r.Some? ==> from <= r.value && MatchesAt(s, r.value)
    ensures r.Some? ==> forall q :: from <= q < r.value ==> !MatchesAt(s, q)
    ensures r.None? ==> forall q :: from <= q ==> !MatchesAt(s, q)
  {
    if from + PatternLength > |s| then None
    else if MatchesAt(s, from) then Some(from)
    else FirstMatch(s, from + 1)
  }

  /**
   * `new Date(year, monthIndex, day, hours, minutes)`: years 0 to 99 mean 1900
   * to 1999, so no `Date` built this way has a year in 0..99; every other
   * field is taken as given.
   */
  function JsDate(year: int, monthIndex: int, day: int, hour: int, minute: int): (t: DateTime)
    ensures !(0 <= t.year <= 99)
    ensures 0 <= year ==> t.year % 100 == year % 100
    ensures !(0 <= year <= 99) ==> t.year == year
    ensures t.(year := year) == DateTime(year, monthIndex, day, hour, minute)
  {
    DateTime(if 0 <= year <= 99 then 1900 + year else year, monthIndex, day, hour, minute)
  }

  /** The `Date` built from the capture groups of a match at `p`; no field is range-checked. */
  function FieldsAt(s: string, p: nat): DateTime
    requires MatchesAt(s, p)
  {
    JsDate(
      Number(s[p + 6..p + 10]),
      TwoDigits(s, p + 3) - 1,
      TwoDigits(s, p),
      TwoDigits(s, p + 11),
      TwoDigits(s, p + 14))
  }

  /**
   * `parseCustomDate`: null for a missing or empty string; otherwise the
   * fields of the leftmost `DD.MM.YYYY HH:MM` found anywhere in the text;
   * otherwise whatever the generic parse yields.
   */
  function ParseCustomDate(text: Option<string>, fallback: Fallback): (r: Option<DateTime>)
    ensures text.None? || text == Some("") ==> r.None?
    ensures text.Some? && text.value != "" && FirstMatch(text.value, 0).None? ==> r == fallback(text.value)
    ensures text.Some? && FirstMatch(text.value, 0).Some? ==>
      r.Some? && 0 <= r.value.day < 100 && -1 <= r.value.monthIndex < 99 && 0 <= r.value.hour < 100 && 0 <= r.value.minute < 100
  {
    if text.None? || text.value == "" then None
    else
      var m := FirstMatch(text.value, 0);
      if m.Some? then
        var p := m.value;
        Some(FieldsAt(text.value, p))
      else fallback(text.value)
  }

  /**
   * The pattern is unanchored: when the leftmost match `w` sits right after
   * `pre`, the parse is the fields of `w`, whatever comes before or after it.
   */
  lemma ParseReadsLeftmostMatch(pre: string, w: string, post: string, fallback: Fallback)
    requires |w| == PatternLength && MatchesAt(w, 0)
    requires forall q :: 0 <= q < |pre| ==> !MatchesAt(pre + w + post, q)
    ensures ParseCustomDate(Some(pre + w + post), fallback) == Some(FieldsAt(w, 0))
  {
    var s := pre + w + post;
    var p := |pre|;
    assert s[p..p + PatternLength] == w;
    assert forall k :: 0 <= k < PatternLength ==> s[p + k] == w[k];
    assert MatchesAt(s, p);
    assert FirstMatch(s, 0) == Some(p);
    assert s[p + 6..p + 10] == w[6..10];
  }

  /** The fields of a match: day, month minus one, year (two-digit years in the 1900s), hours and minutes. */
  lemma FieldsOfMatch(w: string)
    requires |w| == PatternLength && MatchesAt(w, 0)
    ensures FieldsAt(w, 0) == JsDate(
      1000 * DigitValue(w[6]) + 100 * DigitValue(w[7]) + 10 * DigitValue(w[8]) + DigitValue(w[9]),
      10 * DigitValue(w[3]) + DigitValue(w[4]) - 1,
      10 * DigitValue(w[0]) + DigitValue(w[1]),
      10 * DigitValue(w[11]) + DigitValue(w[12]),
      10 * DigitValue(w[14]) + DigitValue(w[15]))
  {
    NumberOfFour(w[6..10]);
  }

  /** "15.12.2025 15:43" is 15 December 2025 (month index 11), 15:43. */
  lemma ParseExample(fallback: Fallback)
    ensures ParseCustomDate(Some("15.12.2025 15:43"), fallback) == Some(DateTime(2025, 11, 15, 15, 43))
  {
    ParseWholeMatch("15.12.2025 15:43", fallback);
  }

  /** A text that is exactly one match parses to the fields of that match. */
  lemma ParseWholeMatch(w: string, fallback: Fallback)
    requires |w| == PatternLength && MatchesAt(w, 0)
    ensures ParseCustomDate(Some(w), fallback) == Some(FieldsAt(w, 0))
    ensures FieldsAt(w, 0) == JsDate(
      1000 * DigitValue(w[6]) + 100 * DigitValue(w[7]) + 10 * DigitValue(w[8]) + DigitValue(w[9]),
      10 * DigitValue(w[3]) + DigitValue(w[4]) - 1,
      10 * DigitValue(w[0]) + DigitValue(w[1]),
      10 * DigitValue(w[11]) + DigitValue(w[12]),
      10 * DigitValue(w[14]) + DigitValue(w[15]))
  {
    ParseReadsLeftmostMatch("", w, "", fallback);
    assert "" + w + "" == w;
    FieldsOfMatch(w);
  }

  /** Out-of-range fields are accepted as they are, and a two-digit year lands in the 1900s. */
  lemma ParseNoRangeChecks(fallback: Fallback)
    ensures ParseCustomDate(Some("99.99.0099 99:99"), fallback) == Some(DateTime(1999, 98, 99, 99, 99))
  {
    var w := "99.99.0099 99:99";
    assert w[6] == w[7] == '0' && w[0] == w[1] == w[3] == w[4] == w[8] == w[9] == w[11] == w[12] == w[14] == w[15] == '9';
    ParseWholeMatch(w, fallback);
    assert JsDate(99, 98, 99, 99, 99) == DateTime(1999, 98, 99, 99, 99);
  }

  /** Text without the pattern goes to the generic parse, and null comes back when that fails too. */
  lemma ParseNotADate(fallback: Fallback)
    requires fallback("not-a-date").None?
    ensures ParseCustomDate(Some("not-a-date"), fallback).None?
  {
  }

  /**
   * The local day of an event for the chart: the chart reads the `date`
   * field, so an event without one, whatever its `event_date`, has no day.
   */
  function EventDay(e: Event, fallback: Fallback): (r: Option<int>)
    ensures e.date.None? || e.date == Some("") ==> r.None?
    ensures r.Some? <==> ParseCustomDate(e.date, fallback).Some?
  {
    var t := ParseCustomDate(e.date, fallback);
    if t.Some? then Some(LocalDay(t.value)) else None
  }

  // ---------------------------------------------------------------------
  // getStartOfWeek
  // ---------------------------------------------------------------------

  /** `getDay()` with Sunday remapped from 0 to 7: Monday 1 ... Sunday 7. */
  function MondayBasedWeekday(d: int): (w: int)
    ensures 1 <= w <= 7 && w % 7 == JsWeekday(d)
  {
    var w := JsWeekday(d);
    if w == 0 then 7 else w
  }

  /**
   * The first day of the week `offset` weeks from the one containing `today`:
   * a Monday, and the one whose week, moved back by `offset` weeks, contains
   * `today`. No bound is put on `offset`.
   */
  function WeekStart(today: int, offset: int): (start: int)
    ensures JsWeekday(start) == 1
    ensures start - 7 * offset <= today < start - 7 * offset + 7
  {
    today - (MondayBasedWeekday(today) - 1) + 7 * offset
  }

  /** There is only one such Monday. */
  lemma WeekStartUnique(today: int, offset: int, monday: int)
    requires JsWeekday(monday) == 1
    requires monday - 7 * offset <= today < monday - 7 * offset + 7
    ensures monday == WeekStart(today, offset)
  {
    var s := WeekStart(today, offset);
    var diff := monday - s;
    assert -7 < diff < 7;
    assert (diff + (s + 4)) % 7 == (s + 4) % 7;
  }

  /** Moving by weeks moves the start by seven days per week. */
  lemma WeekStartShift(today: int, offset: int)
    ensures WeekStart(today, offset) == WeekStart(today, 0) + 7 * offset
  {
  }

  /** On Wednesday 17 December 2025 the current week starts on 15 December and the previous one on 8 December. */
  lemma WeekStartExample()
    ensures WeekStart(DaysFromCivil(2025, 12, 17), 0) == DaysFromCivil(2025, 12, 15)
    ensures WeekStart(DaysFromCivil(2025, 12, 17), -1) == DaysFromCivil(2025, 12, 8)
  {
    assert DaysFromCivil(2025, 12, 17) == 20439;
  }

  /**
   * `getStartOfWeek(offset)` with the clock reading `now`: step back to the
   * Monday through `setDate`, shift by whole weeks, then clear the time.
   */
  method GetStartOfWeek(now: DateTime, offset: int) returns (start: int)
    ensures start == WeekStart(LocalDay(now), offset)
  {
    var today := now;
    var dayOfWeek := JsWeekday(LocalDay(today));
    if dayOfWeek == 0 {
      dayOfWeek := 7;
    }
    var diff := today.day - dayOfWeek + 1;
    SetDateShiftsDay(today, diff + offset * 7);
    today := today.(day := diff + offset * 7);
    start := LocalDay(today);
  }

  // ---------------------------------------------------------------------
  // aggregateEventsByDay
  // ---------------------------------------------------------------------

  const DayNames: seq<string> := ["Пн", "Вт", "Ср", "Чт", "Пт", "Сб", "Вс"]
  const DaysPerWeek := 7
  const BucketLabel := "Заявок"

  /**
   * One point of the trend chart. `dateKey` is the bucket's day formatted by
   * `toLocaleDateString`; the model keeps the day number it is formatted from.
   */
  datatype DayBucket = DayBucket(name: string, value: nat, day: int, nameLabel: string)

  /** Number of events whose date parses and falls on local day `d`. */
  function CountOnDay(es: seq<Event>, d: int, fallback: Fallback): nat
  {
    if es == [] then 0
    else CountOnDay(es[..|es| - 1], d, fallback) + (if EventDay(es[|es| - 1], fallback) == Some(d) then 1 else 0)
  }

  /** Number of events whose date parses and falls in [start, start + 7). */
  function CountInWeek(es: seq<Event>, start: int, fallback: Fallback): nat
  {
    if es == [] then 0
    else
      var d := EventDay(es[|es| - 1], fallback);
      CountInWeek(es[..|es| - 1], start, fallback) + (if d.Some? && start <= d.value < start + DaysPerWeek then 1 else 0)
  }

  function BucketTotal(w: seq<DayBucket>): int
  {
    if w == [] then 0 else w[0].value + BucketTotal(w[1..])
  }

  /** The seven day counts of a week add up to the count of the whole week: every in-week event is counted once. */
  lemma {:induction false} DayCountsPartitionWeek(es: seq<Event>, start: int, fallback: Fallback)
    ensures CountOnDay(es, start, fallback) + CountOnDay(es, start + 1, fallback) + CountOnDay(es, start + 2, fallback)
          + CountOnDay(es, start + 3, fallback) + CountOnDay(es, start + 4, fallback) + CountOnDay(es, start + 5, fallback)
          + CountOnDay(es, start + 6, fallback) == CountInWeek(es, start, fallback)
  {
    if es != [] {
      DayCountsPartitionWeek(es[..|es| - 1], start, fallback);
      OneEventInOneDay(EventDay(es[|es| - 1], fallback), start);
    }
  }

  /** An event of the week falls on exactly one of its seven days. */
  lemma OneEventInOneDay(d: Option<int>, start: int)
    ensures (if d == Some(start) then 1 else 0) + (if d == Some(start + 1) then 1 else 0)
          + (if d == Some(start + 2) then 1 else 0) + (if d == Some(start + 3) then 1 else 0)
          + (if d == Some(start + 4) then 1 else 0) + (if d == Some(start + 5) then 1 else 0)
          + (if d == Some(start + 6) then 1 else 0)
         == if d.Some? && start <= d.value < start + DaysPerWeek then 1 else 0
  {
  }

  /** Counting the days of two lists one after the other adds up. */
  lemma {:induction false} CountOnDayAppend(a: seq<Event>, b: seq<Event>, d: int, fallback: Fallback)
    ensures CountOnDay(a + b, d, fallback) == CountOnDay(a, d, fallback) + CountOnDay(b, d, fallback)
  {
    if b == [] {
      assert a + b == a;
    } else {
      assert (a + b)[..|a + b| - 1] == a + b[..|b| - 1];
      CountOnDayAppend(a, b[..|b| - 1], d, fallback);
    }
  }

  /** Events whose date is missing or does not parse count on no day. */
  lemma {:induction false} UndatedEventsCountNowhere(es: seq<Event>, d: int, fallback: Fallback)
    requires forall e :: e in es ==> EventDay(e, fallback).None?
    ensures CountOnDay(es, d, fallback) == 0
  {
    if es != [] {
      assert es[|es| - 1] in es;
      assert forall e :: e in es[..|es| - 1] ==> e in es;
      UndatedEventsCountNowhere(es[..|es| - 1], d, fallback);
    }
  }

  lemma BucketTotalOfSeven(w: seq<DayBucket>)
    requires |w| == 7
    ensures BucketTotal(w) == w[0].value + w[1].value + w[2].value + w[3].value + w[4].value + w[5].value + w[6].value
  {
    var w1 := w[1..];
    var w2 := w1[1..];
    var w3 := w2[1..];
    var w4 := w3[1..];
    var w5 := w4[1..];
    var w6 := w5[1..];
    assert w6[1..] == [];
    assert BucketTotal(w6) == w[6].value;
    assert BucketTotal(w5) == w[5].value + w[6].value;
    assert BucketTotal(w4) == w[4].value + w[5].value + w[6].value;
    assert BucketTotal(w3) == w[3].value + w[4].value + w[5].value + w[6].value;
    assert BucketTotal(w2) == w[2].value + w[3].value + w[4].value + w[5].value + w[6].value;
    assert BucketTotal(w1) == w[1].value + w[2].value + w[3].value + w[4].value + w[5].value + w[6].value;
  }

  /** The first loop: seven empty buckets, Monday first, for the days from `start` on. */
  method EmptyWeek(start: int) returns (weekData: seq<DayBucket>)
    ensures |weekData| == DaysPerWeek
    ensures forall k :: 0 <= k < DaysPerWeek ==> weekData[k] == DayBucket(DayNames[k], 0, start + k, BucketLabel)
  {
    weekData := [];
    for i := 0 to DaysPerWeek
      invariant |weekData| == i
      invariant forall k :: 0 <= k < i ==> weekData[k] == DayBucket(DayNames[k], 0, start + k, BucketLabel)
    {
      weekData := weekData + [DayBucket(DayNames[i], 0, start + i, BucketLabel)];
    }
  }

  /** The body of the event loop: the event's bucket, if it falls in the week, goes up by one. */
  method TallyEvent(weekData: seq<DayBucket>, event: Event, start: int, fallback: Fallback) returns (next: seq<DayBucket>)
    requires |weekData| == DaysPerWeek
    ensures |next| == DaysPerWeek
    ensures forall k :: 0 <= k < DaysPerWeek ==>
      next[k] == weekData[k].(value := weekData[k].value + if EventDay(event, fallback) == Some(start + k) then 1 else 0)
  {
    next := weekData;
    var eventDate := ParseCustomDate(event.date, fallback);
    if eventDate.Some? {
      var d := LocalDay(eventDate.value);
      if start <= d < start + DaysPerWeek {
        var dayIndex := d - start;
        if 0 <= dayIndex < DaysPerWeek {
          next := weekData[dayIndex := weekData[dayIndex].(value := weekData[dayIndex].value + 1)];
        }
      }
    }
  }

  /**
   * `aggregateEventsByDay(events, offset)`: seven buckets Пн..Вс for the days
   * of the viewed week, bucket i counting the events on day start + i, so
   * that the buckets add up to the events of that week.
   */
  method AggregateEventsByDay(events: seq<Event>, now: DateTime, offset: int, fallback: Fallback)
    returns (weekData: seq<DayBucket>)
    ensures |weekData| == DaysPerWeek
    ensures forall i :: 0 <= i < DaysPerWeek ==>
      && weekData[i].name == DayNames[i]
      && weekData[i].nameLabel == BucketLabel
      && weekData[i].day == WeekStart(LocalDay(now), offset) + i
      && weekData[i].value == CountOnDay(events, WeekStart(LocalDay(now), offset) + i, fallback)
    ensures BucketTotal(weekData) == CountInWeek(events, WeekStart(LocalDay(now), offset), fallback)
  {
    var start := GetStartOfWeek(now, offset);
    weekData := EmptyWeek(start);
    for j := 0 to |events|
      invariant |weekData| == DaysPerWeek
      invariant forall k :: 0 <= k < DaysPerWeek ==>
        && weekData[k].name == DayNames[k] && weekData[k].nameLabel == BucketLabel && weekData[k].day == start + k
        && weekData[k].value == CountOnDay(events[..j], start + k, fallback)
    {
      assert events[..j + 1][..j] == events[..j];
      weekData := TallyEvent(weekData, events[j], start, fallback);
    }
    assert events[..|events|] == events;
    BucketsAddUpToWeek(weekData, events, start, fallback);
  }

  /** Buckets that count the seven days of a week add up to the count of the week. */
  lemma BucketsAddUpToWeek(weekData: seq<DayBucket>, events: seq<Event>, start: int, fallback: Fallback)
    requires |weekData| == DaysPerWeek
    requires forall k :: 0 <= k < DaysPerWeek ==> weekData[k].value == CountOnDay(events, start + k, fallback)
    ensures BucketTotal(weekData) == CountInWeek(events, start, fallback)
  {
    BucketTotalOfSeven(weekData);
    DayCountsPartitionWeek(events, start, fallback);
    assert weekData[0].value == CountOnDay(events, start, fallback);
  }

  // ---------------------------------------------------------------------
  // Page state: week navigation and hot events
  // ---------------------------------------------------------------------

  /** `currentWeekOffset` and its two handlers; the next button never leaves the current week. */
  class WeekNavigator {
    var offset: int

    ghost predicate Valid()
      reads this
    {
      offset <= 0
    }

    constructor ()
      ensures Valid() && offset == 0
    {
      offset := 0;
    }

    /** `handlePrevWeek`: always one week back. */
    method PrevWeek()
      requires Valid()
      modifies this
      ensures Valid() && offset == old(offset) - 1
    {
      offset := offset - 1;
    }

    /** `handleNextWeek`: one week forward only while viewing a past week. */
    method NextWeek()
      requires Valid()
      modifies this
      ensures Valid()
      ensures offset == if old(offset) < 0 then old(offset) + 1 else old(offset)
    {
      if offset < 0 {
        offset := offset + 1;
      }
    }
  }

  /** `events.slice(0, 2)`: the two newest events shown as cards. */
  function HotEvents(events: seq<Event>): (r: seq<Event>)
    ensures r <= events && |r| == if |events| < 2 then |events| else 2
  {
    Slice(events, 2)
  }
}
