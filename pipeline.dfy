/**
 * How the scraper's records reach the dashboard's chart. A record travels
 * as JSON either through the cache file (read at start-up, where
 * `event_date` is copied into `date`) or straight from the collect button
 * (merged as it is, still carrying only `event_date`). The chart reads
 * `date`, so the two paths disagree about the very same record.
 */
module Pipeline {
  import opened Common
  import opened Types
  import opened Calendar
  import opened App
  import opened Dashboard
  import opened Parser

  /**
   * A scraped record as the dashboard receives it: every key the scraper
   * wrote, `event_date` among them, and no `date` and no `intent`.
   */
  function RecordToEvent(r: Record): (e: Event)
    ensures e.date.None? && e.eventDate == Some(r.eventDate)
    ensures e.id == r.id && StatusText(e.status) == r.status && e.confidence == Some(r.confidence)
  {
    Event(r.id, r.product, r.company, r.region, r.volume, None, Some(r.eventDate), None,
          StatusOf(r.status), Some(r.confidence), Some(r.source))
  }

  function RecordsToEvents(rs: seq<Record>): (es: seq<Event>)
    ensures |es| == |rs| && forall i :: 0 <= i < |es| ==> es[i] == RecordToEvent(rs[i])
  {
    seq(|rs|, i requires 0 <= i < |rs| => RecordToEvent(rs[i]))
  }

  /** `hh:mm` on a 24-hour clock, as both sites print the time of an application. */
  predicate ClockTime(time: string)
  {
    && |time| == 5 && IsDigit(time[0]) && IsDigit(time[1]) && time[2] == ':' && IsDigit(time[3]) && IsDigit(time[4])
    && TwoDigits(time, 0) < 24 && TwoDigits(time, 3) < 60
  }

  /** A `Date` at a clock time on a calendar day falls on that day. */
  lemma ClockTimeOfDay(y: int, m: int, d: int, hour: int, minute: int)
    requires 1 <= m <= 12 && 0 <= hour < 24 && 0 <= minute < 60
    ensures LocalDay(DateTime(y, m - 1, d, hour, minute)) == DaysFromCivil(y, m, d)
  {
    assert 0 <= 60 * hour + minute < MinutesPerDay;
  }

  /** The scraped `event_date` of a date and a clock time is one match of the dashboard's pattern. */
  lemma ScrapedDateMatches(c: Civil, time: string)
    requires PyCivil(c) && ClockTime(time)
    ensures |FormatDate(c) + " " + time| == PatternLength && MatchesAt(FormatDate(c) + " " + time, 0)
    ensures FieldsAt(FormatDate(c) + " " + time, 0)
         == JsDate(c.year, c.month - 1, c.day, TwoDigits(time, 0), TwoDigits(time, 3))
  {
    var date := FormatDate(c);
    var w := date + " " + time;
    FormatDateDigits(c);
    assert forall k :: 0 <= k < 10 ==> w[k] == date[k];
    assert w[10] == ' ' && w[11] == time[0] && w[12] == time[1] && w[13] == ':' && w[14] == time[3] && w[15] == time[4];
    FieldsOfMatch(w);
  }

  /** A scraped `event_date` parses to the `Date` of its date and clock time, for years from 100 on. */
  lemma ScrapedDateFields(c: Civil, time: string, fallback: Fallback)
    requires PyCivil(c) && c.year >= 100 && ClockTime(time)
    ensures ParseCustomDate(Some(FormatDate(c) + " " + time), fallback)
         == Some(DateTime(c.year, c.month - 1, c.day, TwoDigits(time, 0), TwoDigits(time, 3)))
  {
    var w := FormatDate(c) + " " + time;
    ScrapedDateMatches(c, time);
    assert "" + w + "" == w;
    ParseReadsLeftmostMatch("", w, "", fallback);
  }

  /**
   * A scraped `event_date` (a target date, a space, a clock time) parses on
   * the dashboard to a time on that very day, for years from 100 on (the
   * `Date` constructor reads years 0 to 99 as 1900 to 1999).
   */
  lemma ScrapedDateParses(c: Civil, time: string, fallback: Fallback)
    requires PyCivil(c) && c.year >= 100 && ClockTime(time)
    ensures ParseCustomDate(Some(FormatDate(c) + " " + time), fallback).Some?
    ensures LocalDay(ParseCustomDate(Some(FormatDate(c) + " " + time), fallback).value) == DaysFromCivil(c.year, c.month, c.day)
  {
    ScrapedDateFields(c, time, fallback);
    ClockTimeOfDay(c.year, c.month, c.day, TwoDigits(time, 0), TwoDigits(time, 3));
  }

  /**
   * The same record on its two paths: read back from the cache it counts on
   * the day its `event_date` names; merged from the collect button it has
   * no day at all, whatever confidence draw it then receives.
   */
  lemma RecordDayByPath(r: Record, c: Civil, time: string, draw: nat, fallback: Fallback)
    requires PyCivil(c) && c.year >= 100 && ClockTime(time)
    requires r.eventDate == FormatDate(c) + " " + time
    requires draw < |PossibleConfidence|
    ensures EventDay(SetRandomConfidenceAndStatus(Normalized(RecordToEvent(r)), draw), fallback)
         == Some(DaysFromCivil(c.year, c.month, c.day))
    ensures EventDay(SetRandomConfidenceAndStatus(RecordToEvent(r), draw), fallback).None?
  {
    ScrapedDateParses(c, time, fallback);
  }

  /** A row the scraper keeps carries the formatted date of one of the target days. */
  lemma TargetRowDate(today: int, row: TradeRow) returns (i: nat)
    requires TargetDaysExist(today)
    requires IsTargetRow(row, set t | t in GetTargetDates(today))
    ensures i < |TargetDays(today)| && PyDate(TargetDays(today)[i])
    ensures row.date.value == FormatDate(CivilFromDays(TargetDays(today)[i]))
  {
    i := TargetDateOf(today, row.date.value);
  }

  /** A MetalTrade record of a target-date row: its `event_date` is the row's date and time. */
  lemma TradeRecordOnTargetDay(today: int, row: TradeRow, draw: nat, fallback: Fallback)
    requires TargetDaysExist(today)
    requires forall i :: 0 <= i < |TargetDays(today)| ==> CivilFromDays(TargetDays(today)[i]).year >= 100
    requires IsTargetRow(row, set t | t in GetTargetDates(today)) && ClockTime(row.time)
    requires draw < |PossibleConfidence|
    ensures exists i :: 0 <= i < |TargetDays(today)| &&
                        EventDay(SetRandomConfidenceAndStatus(Normalized(RecordToEvent(TradeRecord(row))), draw), fallback)
                        == Some(TargetDays(today)[i])
    ensures EventDay(SetRandomConfidenceAndStatus(RecordToEvent(TradeRecord(row)), draw), fallback).None?
  {
    var i := TargetRowDate(today, row);
    var c := CivilFromDays(TargetDays(today)[i]);
    RecordDayByPath(TradeRecord(row), c, row.time, draw, fallback);
  }

  /** No event of a freshly assigned batch of scraped records is counted on any day. */
  lemma {:induction false} AssignedRecordsCountNowhere(rs: seq<Record>, draws: seq<nat>, d: int, fallback: Fallback)
    requires ValidDraws(draws, |rs|)
    ensures CountOnDay(AssignAll(RecordsToEvents(rs), draws), d, fallback) == 0
  {
    var batch := AssignAll(RecordsToEvents(rs), draws);
    forall e | e in batch
      ensures EventDay(e, fallback).None?
    {
      var i :| 0 <= i < |batch| && batch[i] == e;
      assert e.date == RecordsToEvents(rs)[i].date;
    }
    UndatedEventsCountNowhere(batch, d, fallback);
  }

  /**
   * After a collect, the chart counts on every day exactly what the retained
   * previous events count: the whole new batch is invisible to it.
   */
  lemma MergedChartCountsOnlyRetained(prev: seq<Event>, rs: seq<Record>, draws: seq<nat>, d: int, fallback: Fallback)
    requires ValidDraws(draws, |rs|)
    ensures CountOnDay(Merged(prev, RecordsToEvents(rs), draws), d, fallback)
         == CountOnDay(Merged(prev, RecordsToEvents(rs), draws)[|rs|..], d, fallback)
  {
    var m := Merged(prev, RecordsToEvents(rs), draws);
    assert m == m[..|rs|] + m[|rs|..];
    CountOnDayAppend(m[..|rs|], m[|rs|..], d, fallback);
    AssignedRecordsCountNowhere(rs, draws, d, fallback);
  }

  /**
   * The chart sees only the first 50 events, and a collect puts its batch
   * first: a batch of 50 or more scraped records empties the chart.
   */
  lemma LargeCollectEmptiesChart(prev: seq<Event>, rs: seq<Record>, draws: seq<nat>, d: int, fallback: Fallback)
    requires ValidDraws(draws, |rs|) && |rs| >= DashboardEventLimit
    ensures CountOnDay(Slice(Merged(prev, RecordsToEvents(rs), draws), DashboardEventLimit), d, fallback) == 0
  {
    var m := Merged(prev, RecordsToEvents(rs), draws);
    assert |rs| <= |m| && CountOnDay(m[..|rs|], d, fallback) == 0 by {
      AssignedRecordsCountNowhere(rs, draws, d, fallback);
    }
    ShownPrefixCountsNowhere(m, DashboardEventLimit, |rs|, d, fallback);
  }

  /** A prefix of a list that counts on no day counts on no day when sliced shorter. */
  lemma ShownPrefixCountsNowhere(m: seq<Event>, k: nat, n: nat, d: int, fallback: Fallback)
    requires k <= n <= |m| && CountOnDay(m[..n], d, fallback) == 0
    ensures CountOnDay(Slice(m, k), d, fallback) == 0
  {
    assert m[..n] == Slice(m, k) + m[k..n];
    CountOnDayAppend(Slice(m, k), m[k..n], d, fallback);
  }

  /**
   * A smaller batch leaves on the chart only the first `50 - |batch|` of the
   * retained previous events.
   */
  lemma SmallCollectShowsRetainedPrefix(prev: seq<Event>, rs: seq<Record>, draws: seq<nat>, d: int, fallback: Fallback)
    requires ValidDraws(draws, |rs|) && |rs| < DashboardEventLimit
    ensures CountOnDay(Slice(Merged(prev, RecordsToEvents(rs), draws), DashboardEventLimit), d, fallback)
         == CountOnDay(Slice(Merged(prev, RecordsToEvents(rs), draws)[|rs|..], DashboardEventLimit - |rs|), d, fallback)
  {
    var m := Merged(prev, RecordsToEvents(rs), draws);
    var batch := m[..|rs|];
    var rest := Slice(m[|rs|..], DashboardEventLimit - |rs|);
    AssignedRecordsCountNowhere(rs, draws, d, fallback);
    assert Slice(m, DashboardEventLimit) == batch + rest;
    CountOnDayAppend(batch, rest, d, fallback);
  }
}
