/**
 * The scraper (parser.py): which dates it targets, how it reads the
 * MetalInfo bulletin board and the MetalTrade listing, and how it
 * deduplicates what it collected. Web pages are reduced to the rows the
 * selectors would find; Python's `hash` is a function parameter.
 */
module Parser {
  import opened Common
  import opened Types
  import opened Calendar

  // ---------------------------------------------------------------------
  // get_target_dates
  // ---------------------------------------------------------------------

  /** A day that Python's `datetime.date` can represent (years 1 to 9999). */
  predicate PyDate(d: int)
  {
    1 <= CivilFromDays(d).year <= 9999
  }

  /** The days `get_target_dates` formats, in order: Monday also reaches back over the weekend. */
  function TargetDays(today: int): (r: seq<int>)
    ensures |r| == if PyWeekday(today) == 0 then 4 else 2
    ensures r[0] == today - 1 && r[|r| - 1] == today
    ensures PyWeekday(today) == 0 ==> PyWeekday(r[1]) == 5 && PyWeekday(r[2]) == 4
  {
    if PyWeekday(today) == 0 then [today - 1, today - 2, today - 3, today]
    else [today - 1, today]
  }

  /** Every target lies in [today - 3, today], today is always among them, and no day appears twice. */
  lemma TargetDaysWindow(today: int)
    ensures today in TargetDays(today) && today - 1 in TargetDays(today)
    ensures forall d :: d in TargetDays(today) ==> today - 3 <= d <= today
    ensures forall i, j :: 0 <= i < j < |TargetDays(today)| ==> TargetDays(today)[i] != TargetDays(today)[j]
    ensures today - 3 in TargetDays(today) <==> PyWeekday(today) == 0
  {
  }

  function DigitChar(k: int): (c: char)
    requires 0 <= k < 10
    ensures IsDigit(c) && DigitValue(c) == k
  {
    ('0' as int + k) as char
  }

  /** `%d` and `%m`: two digits, zero-padded. */
  function Pad2(n: int): (s: string)
    requires 0 <= n < 100
    ensures |s| == 2 && IsDigit(s[0]) && IsDigit(s[1]) && TwoDigits(s, 0) == n
  {
    [DigitChar(n / 10), DigitChar(n % 10)]
  }

  /** `%Y`: four digits, zero-padded. */
  function Pad4(n: int): (s: string)
    requires 0 <= n < 10000
    ensures |s| == 4 && (forall i :: 0 <= i < 4 ==> IsDigit(s[i])) && 100 * TwoDigits(s, 0) + TwoDigits(s, 2) == n
  {
    Pad2(n / 100) + Pad2(n % 100)
  }

  /** A civil date that Python's `datetime.date` can hold. */
  predicate PyCivil(c: Civil)
  {
    1 <= c.year <= 9999 && 1 <= c.month <= 12 && 1 <= c.day <= 31
  }

  /** `date.strftime('%d.%m.%Y')`. */
  function FormatDate(c: Civil): (s: string)
    requires PyCivil(c)
    ensures |s| == 10 && s[2] == '.' && s[5] == '.'
  {
    Pad2(c.day) + "." + Pad2(c.month) + "." + Pad4(c.year)
  }

  /**
   * `datetime.strptime(s, '%d.%m.%Y')` on the two-digit, two-digit,
   * four-digit form: the civil date, or `None` where strptime raises.
   */
  function ParseTargetDate(s: string): (r: Option<Civil>)
    ensures r.Some? ==> 1 <= r.value.month <= 12 && 1 <= r.value.day <= 31
  {
    if && |s| == 10 && IsDigit(s[0]) && IsDigit(s[1]) && s[2] == '.' && IsDigit(s[3]) && IsDigit(s[4]) && s[5] == '.'
       && IsDigit(s[6]) && IsDigit(s[7]) && IsDigit(s[8]) && IsDigit(s[9])
    then
      var day := TwoDigits(s, 0);
      var month := TwoDigits(s, 3);
      if 1 <= month <= 12 && 1 <= day <= 31 then Some(Civil(100 * TwoDigits(s, 6) + TwoDigits(s, 8), month, day)) else None
    else None
  }

  /** Parsing a formatted date gives back the date it was formatted from. */
  lemma FormatParseRoundTrip(c: Civil)
    requires PyCivil(c)
    ensures ParseTargetDate(FormatDate(c)) == Some(c)
  {
    var s := FormatDate(c);
    var d, m, y := Pad2(c.day), Pad2(c.month), Pad4(c.year);
    assert s == d + "." + m + "." + y;
    SameTwoDigits(s, 0, d, 0);
    SameTwoDigits(s, 3, m, 0);
    SameTwoDigits(s, 6, y, 0);
    SameTwoDigits(s, 8, y, 2);
  }

  /** Two digits copied from one string to another read as the same number. */
  lemma SameTwoDigits(s: string, i: nat, t: string, j: nat)
    requires i + 2 <= |s| && j + 2 <= |t| && IsDigit(t[j]) && IsDigit(t[j + 1])
    requires s[i] == t[j] && s[i + 1] == t[j + 1]
    ensures IsDigit(s[i]) && IsDigit(s[i + 1]) && TwoDigits(s, i) == TwoDigits(t, j)
  {
  }

  /** The digits of a formatted date spell its day, month and year. */
  lemma FormatDateDigits(c: Civil)
    requires PyCivil(c)
    ensures forall k :: 0 <= k < 10 && k != 2 && k != 5 ==> IsDigit(FormatDate(c)[k])
    ensures 10 * DigitValue(FormatDate(c)[0]) + DigitValue(FormatDate(c)[1]) == c.day
    ensures 10 * DigitValue(FormatDate(c)[3]) + DigitValue(FormatDate(c)[4]) == c.month
    ensures 1000 * DigitValue(FormatDate(c)[6]) + 100 * DigitValue(FormatDate(c)[7])
          + 10 * DigitValue(FormatDate(c)[8]) + DigitValue(FormatDate(c)[9]) == c.year
  {
    FormatParseRoundTrip(c);
  }

  /** Formatting is one-to-one: distinct dates give distinct strings. */
  lemma FormatDateInjective(c1: Civil, c2: Civil)
    requires PyCivil(c1) && PyCivil(c2) && FormatDate(c1) == FormatDate(c2)
    ensures c1 == c2
  {
    FormatParseRoundTrip(c1);
    FormatParseRoundTrip(c2);
  }

  /** The days `get_target_dates` touches exist as Python dates. */
  predicate TargetDaysExist(today: int)
  {
    forall i :: 0 <= i < |TargetDays(today)| ==> PyDate(TargetDays(today)[i])
  }

  /**
   * `get_target_dates()` for the local day `today`: the target days as
   * `dd.mm.yyyy` strings, each of which `strptime` reads back as its day.
   */
  function GetTargetDates(today: int): (r: seq<string>)
    requires TargetDaysExist(today)
    ensures |r| == |TargetDays(today)|
    ensures forall i :: 0 <= i < |r| ==> ParseTargetDate(r[i]) == Some(CivilFromDays(TargetDays(today)[i]))
  {
    FormatDaysParse(TargetDays(today));
    FormatDays(TargetDays(today))
  }

  /** `[d.strftime('%d.%m.%Y') for d in days]`. */
  function FormatDays(days: seq<int>): (r: seq<string>)
    requires forall i :: 0 <= i < |days| ==> PyDate(days[i])
    ensures |r| == |days|
  {
    seq(|days|, i requires 0 <= i < |days| => assert PyDate(days[i]); FormatDate(CivilFromDays(days[i])))
  }

  /** The i-th formatted day is the i-th day in `dd.mm.yyyy` form. */
  lemma FormatDaysAt(days: seq<int>, i: nat)
    requires forall k :: 0 <= k < |days| ==> PyDate(days[k])
    requires i < |days|
    ensures PyDate(days[i]) && FormatDays(days)[i] == FormatDate(CivilFromDays(days[i]))
  {
  }

  /** A target date string is the formatted form of one of the target days. */
  lemma TargetDateOf(today: int, t: string) returns (i: nat)
    requires TargetDaysExist(today) && t in GetTargetDates(today)
    ensures i < |TargetDays(today)| && PyDate(TargetDays(today)[i])
    ensures t == FormatDate(CivilFromDays(TargetDays(today)[i]))
  {
    var days := TargetDays(today);
    var dates := GetTargetDates(today);
    assert dates == FormatDays(days);
    i :| 0 <= i < |dates| && dates[i] == t;
    FormatDaysAt(days, i);
  }

  /** Each formatted day parses back to that day. */
  lemma FormatDaysParse(days: seq<int>)
    requires forall i :: 0 <= i < |days| ==> PyDate(days[i])
    ensures forall i :: 0 <= i < |days| ==> ParseTargetDate(FormatDays(days)[i]) == Some(CivilFromDays(days[i]))
  {
    forall i | 0 <= i < |days|
      ensures ParseTargetDate(FormatDays(days)[i]) == Some(CivilFromDays(days[i]))
    {
      FormatParseRoundTrip(CivilFromDays(days[i]));
    }
  }

  /** A Monday in December 2025 targets the preceding Sunday, Saturday, Friday and itself. */
  lemma TargetDatesExample()
    ensures DaysFromCivil(2025, 12, 15) == 20437 && PyWeekday(20437) == 0
    ensures TargetDays(20437) == [20436, 20435, 20434, 20437]
    ensures DaysFromCivil(2025, 12, 12) == 20434
  {
  }

  // ---------------------------------------------------------------------
  // MetalInfo bulletin board
  // ---------------------------------------------------------------------

  /** Genitive month names, as the board's date headers print them. */
  const MonthGenitive: seq<string> := [
    "января", "февраля", "марта", "апреля", "мая", "июня",
    "июля", "августа", "сентября", "октября", "ноября", "декабря"]

  /** `str(n)` of a natural number. */
  function NatText(n: nat): (s: string)
    ensures |s| >= 1 && forall i :: 0 <= i < |s| ==> IsDigit(s[i])
  {
    if n < 10 then [DigitChar(n)] else NatText(n / 10) + [DigitChar(n % 10)]
  }

  /** `str` and `int` are inverse on natural numbers. */
  lemma {:induction false} NatTextRoundTrip(n: nat)
    ensures Number(NatText(n)) == n
  {
    if n >= 10 {
      NatTextRoundTrip(n / 10);
      var s := NatText(n);
      assert s[..|s| - 1] == NatText(n / 10);
    }
  }

  /** The header pattern of a civil date: the unpadded day, a space, the month in the genitive. */
  function TargetPattern(c: Civil): string
    requires 1 <= c.month <= 12 && 1 <= c.day
  {
    NatText(c.day) + " " + MonthGenitive[c.month - 1]
  }

  /** `target_patterns`: each target date paired with its header pattern, in target order. */
  function TargetPatterns(targetDates: seq<string>): (r: seq<(string, string)>)
    requires forall t :: t in targetDates ==> ParseTargetDate(t).Some?
    ensures |r| == |targetDates|
    ensures forall k :: 0 <= k < |r| ==> r[k].1 == targetDates[k] && r[k].0 == TargetPattern(ParseTargetDate(targetDates[k]).value)
  {
    seq(|targetDates|, k requires 0 <= k < |targetDates| => (TargetPattern(ParseTargetDate(targetDates[k]).value), targetDates[k]))
  }

  /** On 15 December 2025 the header pattern is "15 декабря", and on 1 December it is "1 декабря". */
  lemma TargetPatternExample()
    ensures ParseTargetDate("15.12.2025") == Some(Civil(2025, 12, 15))
    ensures ParseTargetDate("01.12.2025") == Some(Civil(2025, 12, 1))
    ensures TargetPatterns(["15.12.2025"]) == [("15 декабря", "15.12.2025")]
    ensures TargetPatterns(["01.12.2025"]) == [("1 декабря", "01.12.2025")]
  {
    ParseExampleDate("15.12.2025", 15);
    ParseExampleDate("01.12.2025", 1);
    assert NatText(15) == "15" by {
      assert NatText(15) == NatText(1) + [DigitChar(5)];
    }
    assert NatText(1) == "1";
    SinglePattern("15.12.2025", Civil(2025, 12, 15), "15 декабря");
    SinglePattern("01.12.2025", Civil(2025, 12, 1), "1 декабря");
  }

  /** The patterns of a single target date are its one pair. */
  lemma SinglePattern(t: string, c: Civil, p: string)
    requires ParseTargetDate(t) == Some(c) && TargetPattern(c) == p
    ensures TargetPatterns([t]) == [(p, t)]
  {
    var r := TargetPatterns([t]);
    assert |r| == 1 && r[0] == (p, t);
  }

  lemma ParseExampleDate(s: string, day: int)
    requires s == "15.12.2025" || s == "01.12.2025"
    requires day == if s[0] == '1' then 15 else 1
    ensures ParseTargetDate(s) == Some(Civil(2025, 12, day))
  {
  }

  /**
   * An item of `#bulletinList`, by the class it carries: a date header, a
   * bulletin with its title, company, region and time spans, the
   * description that may follow a bulletin, or anything else. Texts are
   * taken as already stripped.
   */
  datatype BoardRow =
    | DateRow(text: string)
    | BulletinRow(title: string, company: string, region: string, time: string)
    | DescriptionRow(text: string)
    | OtherRow

  /**
   * The outcome of loading one board page: its items, or an error that ends
   * the scan. A page that loads with no items ends the scan as well, since
   * waiting for the first item then times out.
   */
  datatype BoardPage = BoardLoaded(rows: seq<BoardRow>) | BoardFailed

  const BoardUrl := "https://www.metalinfo.ru/ru/board"
  const BoardPageCount := 5
  const NoVolume := "Не указано"
  const BoardConfidence := 55
  const PotentialStatus := "potential"

  /** The header loop: the date of the first pattern contained in the header text, if any. */
  function MatchTarget(text: string, patterns: seq<(string, string)>): (r: Option<string>)
    ensures r.None? <==> forall k :: 0 <= k < |patterns| ==> !Contains(text, patterns[k].0)
    ensures r.Some? ==> exists k :: 0 <= k < |patterns| && Contains(text, patterns[k].0) && r.value == patterns[k].1
                           && forall j :: 0 <= j < k ==> !Contains(text, patterns[j].0)
  {
    if patterns == [] then None
    else if Contains(text, patterns[0].0) then Some(patterns[0].1)
    else
      var r := MatchTarget(text, patterns[1..]);
      assert forall k :: 1 <= k < |patterns| ==> patterns[k] == patterns[1..][k - 1];
      r
  }

  /** The state of the board scan: `current_target_date` and the events so far. */
  datatype BoardScan = BoardScan(current: Option<string>, events: seq<Record>)

  /** `current_target_date` is truthy. */
  predicate HasTarget(current: Option<string>)
  {
    current.Some? && current.value != ""
  }

  /** The volume of the bulletin at `i`: the text of the next item when it is a description. */
  function VolumeAfter(rows: seq<BoardRow>, i: nat): string
    requires i < |rows|
  {
    if i + 1 < |rows| && rows[i + 1].DescriptionRow? then rows[i + 1].text else NoVolume
  }

  function BulletinRecord(row: BoardRow, date: string, volume: string): Record
    requires row.BulletinRow?
  {
    Record(0, row.title, row.company, row.region, volume, date + " " + row.time, PotentialStatus, BoardConfidence, BoardUrl)
  }

  /**
   * What one item does to the scan: only a header changes the current
   * target, and only a bulletin under a truthy target adds an event.
   */
  function ScanStep(rows: seq<BoardRow>, i: nat, st: BoardScan, patterns: seq<(string, string)>): (r: BoardScan)
    requires i < |rows|
    ensures rows[i].DateRow? ==> r.current == MatchTarget(rows[i].text, patterns)
    ensures !rows[i].DateRow? ==> r.current == st.current
    ensures st.events <= r.events
    ensures |r.events| == if rows[i].BulletinRow? && HasTarget(st.current) then |st.events| + 1 else |st.events|
  {
    match rows[i]
    case DateRow(text) => st.(current := MatchTarget(text, patterns))
    case BulletinRow(_, _, _, _) =>
      if HasTarget(st.current)
      then st.(events := st.events + [BulletinRecord(rows[i], st.current.value, VolumeAfter(rows, i))])
      else st
    case _ => st
  }

  /** The scan after the first `n` items of a page. */
  function ScanRows(rows: seq<BoardRow>, n: nat, st: BoardScan, patterns: seq<(string, string)>): (r: BoardScan)
    requires n <= |rows|
    ensures st.events <= r.events
  {
    if n == 0 then st else ScanStep(rows, n - 1, ScanRows(rows, n - 1, st, patterns), patterns)
  }

  /** Loading this page raises: the page failed, or it has no item to wait for. */
  predicate EndsScan(page: BoardPage)
  {
    page.BoardFailed? || page.rows == []
  }

  /**
   * The scan over the pages in order, stopping at the first page that fails
   * to load or has no items; events are only ever appended.
   */
  function ScanBoard(pages: seq<BoardPage>, st: BoardScan, patterns: seq<(string, string)>): (r: BoardScan)
    decreases |pages|
    ensures st.events <= r.events
    ensures pages == [] || EndsScan(pages[0]) ==> r == st
  {
    if pages == [] || EndsScan(pages[0]) then st
    else ScanBoard(pages[1..], ScanRows(pages[0].rows, |pages[0].rows|, st, patterns), patterns)
  }

  /** `parse_metal_info_board(page, target_dates)`, given what each of the five pages returns. */
  method ParseMetalInfoBoard(pages: seq<BoardPage>, targetDates: seq<string>) returns (allEvents: seq<Record>)
    requires |pages| == BoardPageCount
    requires forall t :: t in targetDates ==> ParseTargetDate(t).Some?
    ensures allEvents == ScanBoard(pages, BoardScan(None, []), TargetPatterns(targetDates)).events
  {
    var patterns := TargetPatterns(targetDates);
    allEvents := [];
    var current: Option<string> := None;
    var pageNum := 0;
    while pageNum < BoardPageCount
      invariant 0 <= pageNum <= BoardPageCount
      invariant ScanBoard(pages[pageNum..], BoardScan(current, allEvents), patterns)
             == ScanBoard(pages, BoardScan(None, []), patterns)
    {
      if pages[pageNum].BoardFailed? || pages[pageNum].rows == [] {
        ScanBoardEndsAt(pages, pageNum, BoardScan(current, allEvents), patterns);
        break;
      }
      ScanBoardAt(pages, pageNum, BoardScan(current, allEvents), patterns);
      current, allEvents := ScanBoardPage(pages[pageNum].rows, current, allEvents, patterns);
      pageNum := pageNum + 1;
    }
    if pageNum == BoardPageCount {
      ScanBoardEndsAt(pages, pageNum, BoardScan(current, allEvents), patterns);
    }
  }

  /** The scan from a page that loads with items goes on to the next page. */
  lemma ScanBoardAt(pages: seq<BoardPage>, k: nat, st: BoardScan, patterns: seq<(string, string)>)
    requires k < |pages| && !EndsScan(pages[k])
    ensures ScanBoard(pages[k..], st, patterns)
         == ScanBoard(pages[k + 1..], ScanRows(pages[k].rows, |pages[k].rows|, st, patterns), patterns)
  {
    assert pages[k..][0] == pages[k] && pages[k..][1..] == pages[k + 1..];
  }

  /** The scan from the end, or from a page that ends it, changes nothing. */
  lemma ScanBoardEndsAt(pages: seq<BoardPage>, k: nat, st: BoardScan, patterns: seq<(string, string)>)
    requires k == |pages| || (k < |pages| && EndsScan(pages[k]))
    ensures ScanBoard(pages[k..], st, patterns) == st
  {
    assert k < |pages| ==> pages[k..][0] == pages[k];
  }

  /** The item loop of one board page, carrying `current_target_date` over from the previous page. */
  method ScanBoardPage(items: seq<BoardRow>, current: Option<string>, allEvents: seq<Record>, patterns: seq<(string, string)>)
    returns (current': Option<string>, allEvents': seq<Record>)
    ensures BoardScan(current', allEvents') == ScanRows(items, |items|, BoardScan(current, allEvents), patterns)
  {
    current', allEvents' := current, allEvents;
    for i := 0 to |items|
      invariant BoardScan(current', allEvents') == ScanRows(items, i, BoardScan(current, allEvents), patterns)
    {
      match items[i] {
        case DateRow(dateText) =>
          current' := MatchHeader(dateText, patterns);
        case BulletinRow(title, company, region, eventTime) =>
          if current'.Some? && current'.value != "" {
            var volume := NoVolume;
            if i + 1 < |items| && items[i + 1].DescriptionRow? {
              volume := items[i + 1].text;
            }
            allEvents' := allEvents' + [Record(0, title, company, region, volume, current'.value + " " + eventTime,
                                               PotentialStatus, BoardConfidence, BoardUrl)];
          }
        case _ =>
      }
    }
  }

  /** The pattern loop of a date header: the first target whose pattern the header contains. */
  method MatchHeader(dateText: string, patterns: seq<(string, string)>) returns (current: Option<string>)
    ensures current == MatchTarget(dateText, patterns)
  {
    current := None;
    var k := 0;
    while k < |patterns|
      invariant 0 <= k <= |patterns| && current.None?
      invariant MatchTarget(dateText, patterns[k..]) == MatchTarget(dateText, patterns)
    {
      assert patterns[k..][0] == patterns[k] && patterns[k..][1..] == patterns[k + 1..];
      if Contains(dateText, patterns[k].0) {
        current := Some(patterns[k].1);
        return;
      }
      k := k + 1;
    }
  }

  /** Between a header and the next one, `current_target_date` is what that header matched. */
  lemma {:induction false} CurrentAfterHeader(rows: seq<BoardRow>, h: nat, j: nat, st: BoardScan, patterns: seq<(string, string)>)
    requires h < j <= |rows| && rows[h].DateRow?
    requires forall m :: h < m < j ==> !rows[m].DateRow?
    ensures ScanRows(rows, j, st, patterns).current == MatchTarget(rows[h].text, patterns)
  {
    if j > h + 1 {
      CurrentAfterHeader(rows, h, j - 1, st, patterns);
    }
  }

  /**
   * A bulletin is emitted exactly when the nearest header above it on the
   * page matched a target, and then it carries that target's date and the
   * volume of the description right after it.
   */
  lemma BulletinFollowsNearestHeader(rows: seq<BoardRow>, h: nat, i: nat, st: BoardScan, patterns: seq<(string, string)>)
    requires h < i < |rows| && rows[h].DateRow? && rows[i].BulletinRow?
    requires forall m :: h < m < i ==> !rows[m].DateRow?
    ensures var t := MatchTarget(rows[h].text, patterns);
      ScanRows(rows, i + 1, st, patterns).events
        == ScanRows(rows, i, st, patterns).events
           + (if HasTarget(t) then [BulletinRecord(rows[i], t.value, VolumeAfter(rows, i))] else [])
  {
    CurrentAfterHeader(rows, h, i, st, patterns);
  }

  /** The properties every board event has: fixed status, confidence and source, and a target date. */
  predicate BoardEvent(e: Record, patterns: seq<(string, string)>)
  {
    && e.id == 0 && e.status == PotentialStatus && e.confidence == BoardConfidence && e.source == BoardUrl
    && exists k :: 0 <= k < |patterns| && patterns[k].1 + " " <= e.eventDate
  }

  predicate ScanSound(st: BoardScan, patterns: seq<(string, string)>)
  {
    && (st.current.Some? ==> exists k :: 0 <= k < |patterns| && patterns[k].1 == st.current.value)
    && forall e :: e in st.events ==> BoardEvent(e, patterns)
  }

  lemma {:induction false} ScanRowsSound(rows: seq<BoardRow>, n: nat, st: BoardScan, patterns: seq<(string, string)>)
    requires n <= |rows| && ScanSound(st, patterns)
    ensures ScanSound(ScanRows(rows, n, st, patterns), patterns)
  {
    if n > 0 {
      ScanRowsSound(rows, n - 1, st, patterns);
      var prior := ScanRows(rows, n - 1, st, patterns);
      if rows[n - 1].BulletinRow? && HasTarget(prior.current) {
        var k :| 0 <= k < |patterns| && patterns[k].1 == prior.current.value;
        var e := BulletinRecord(rows[n - 1], prior.current.value, VolumeAfter(rows, n - 1));
        assert patterns[k].1 + " " <= e.eventDate;
      }
    }
  }

  /** Every event the board scan emits is a potential, 55-confidence board event dated on a target date. */
  lemma {:induction false} BoardEventsCarryTarget(pages: seq<BoardPage>, st: BoardScan, patterns: seq<(string, string)>)
    requires ScanSound(st, patterns)
    ensures forall e :: e in ScanBoard(pages, st, patterns).events ==> BoardEvent(e, patterns)
    decreases |pages|
  {
    if pages != [] && !EndsScan(pages[0]) {
      ScanRowsSound(pages[0].rows, |pages[0].rows|, st, patterns);
      BoardEventsCarryTarget(pages[1..], ScanRows(pages[0].rows, |pages[0].rows|, st, patterns), patterns);
    }
  }

  /** Header matching is by substring: the pattern of the 1st also matches the header of the 21st. */
  lemma HeaderMatchIsSubstring()
    ensures MatchTarget("21 декабря", [("1 декабря", "01.12.2025")]) == Some("01.12.2025")
  {
    assert OccursAt("21 декабря", "1 декабря", 1);
  }

  /**
   * A page with a matching header, a bulletin with its description, a
   * non-matching header and a bulletin under it: one event, with the
   * description as volume; the target then stays set on the next page.
   */
  lemma BoardScanExample(b1: BoardRow, b2: BoardRow, b3: BoardRow)
    requires b1.BulletinRow? && b2.BulletinRow? && b3.BulletinRow?
    ensures var patterns := [("15 декабря", "15.12.2025")];
      var page1 := BoardLoaded([DateRow("15 декабря"), b1, DescriptionRow("10 т"), DateRow("14 декабря"), b2]);
      var page2 := BoardLoaded([DateRow("15 декабря"), b3]);
      ScanBoard([page1, page2, BoardFailed, page1, page1], BoardScan(None, []), patterns).events
        == [BulletinRecord(b1, "15.12.2025", "10 т"), BulletinRecord(b3, "15.12.2025", NoVolume)]
  {
    var patterns := [("15 декабря", "15.12.2025")];
    assert OccursAt("15 декабря", "15 декабря", 0);
    assert !Contains("14 декабря", "15 декабря") by {
      forall i: nat | i <= |"14 декабря"| ensures !OccursAt("14 декабря", "15 декабря", i) {
        if i == 0 { assert "14 декабря"[1] != "15 декабря"[1]; }
      }
    }
    var rows1 := [DateRow("15 декабря"), b1, DescriptionRow("10 т"), DateRow("14 декабря"), b2];
    var rows2 := [DateRow("15 декабря"), b3];
    var st0 := BoardScan(None, []);
    var e1 := BulletinRecord(b1, "15.12.2025", "10 т");
    assert ScanRows(rows1, 1, st0, patterns) == BoardScan(Some("15.12.2025"), []);
    assert ScanRows(rows1, 2, st0, patterns) == BoardScan(Some("15.12.2025"), [e1]);
    assert ScanRows(rows1, 3, st0, patterns) == BoardScan(Some("15.12.2025"), [e1]);
    assert ScanRows(rows1, 4, st0, patterns) == BoardScan(None, [e1]);
    var s1 := ScanRows(rows1, 5, st0, patterns);
    assert s1 == BoardScan(None, [e1]);
    assert ScanRows(rows2, 1, s1, patterns) == BoardScan(Some("15.12.2025"), [e1]);
    var s2 := ScanRows(rows2, 2, s1, patterns);
    assert s2.events == [e1, BulletinRecord(b3, "15.12.2025", NoVolume)];
    var pages := [BoardLoaded(rows1), BoardLoaded(rows2), BoardFailed, BoardLoaded(rows1), BoardLoaded(rows1)];
    assert pages[1..][1..][0].BoardFailed?;
    assert ScanBoard(pages[1..][1..], s2, patterns) == s2;
  }

  // ---------------------------------------------------------------------
  // MetalTrade listing
  // ---------------------------------------------------------------------

  /**
   * A row of `table.tradetable`: the date and time of the first
   * `DD.MM.YYYY HH:MM` in its text (no date when there is none) and the
   * product, company and region the selectors and line split extract.
   */
  datatype TradeRow = TradeRow(date: Option<string>, time: string, product: string, company: string, region: string)

  /** The outcome of loading the listing at one offset. */
  datatype TradePage = TradeLoaded(rows: seq<TradeRow>) | TradeFailed

  const TradeUrl := "https://www.metal-trade.ru/buy/"
  const MaxOffset := 150
  const PageSize := 30
  const TradeConfidence := 70

  predicate IsTargetRow(row: TradeRow, targets: set<string>)
  {
    row.date.Some? && row.date.value in targets
  }

  /** The event of a target-date row: its product doubles as the volume. */
  function TradeRecord(row: TradeRow): Record
    requires row.date.Some?
  {
    Record(0, row.product, row.company, row.region, row.product, row.date.value + " " + row.time,
           PotentialStatus, TradeConfidence, TradeUrl)
  }

  /** The events of one page: the target-date rows, in order. */
  function PageRecords(rows: seq<TradeRow>, targets: set<string>): (r: seq<Record>)
    ensures |r| <= |rows|
  {
    if rows == [] then []
    else
      var last := rows[|rows| - 1];
      PageRecords(rows[..|rows| - 1], targets) + (if IsTargetRow(last, targets) then [TradeRecord(last)] else [])
  }

  /**
   * The events collected from `offset` on, and the offsets requested: stop
   * past the last offset, on a load error, on an empty table, and on a
   * page after the first that has no target-date row.
   */
  function TradeFrom(fetch: int -> TradePage, offset: int, targets: set<string>): (r: (seq<Record>, seq<int>))
    decreases MaxOffset + PageSize - offset
    ensures offset <= MaxOffset <==> |r.1| > 0 && r.1[0] == offset
  {
    if offset > MaxOffset then ([], [])
    else
      var page := fetch(offset);
      if page.TradeFailed? || page.rows == [] then ([], [offset])
      else
        var found := PageRecords(page.rows, targets);
        if |found| == 0 && offset > 0 then ([], [offset])
        else
          var rest := TradeFrom(fetch, offset + PageSize, targets);
          (found + rest.0, [offset] + rest.1)
  }

  /** The row loop of one listing page: the events of its target-date rows, in order. */
  method CollectTradeRows(rows: seq<TradeRow>, targetSet: set<string>) returns (found: seq<Record>)
    ensures found == PageRecords(rows, targetSet)
  {
    found := [];
    for i := 0 to |rows|
      invariant found == PageRecords(rows[..i], targetSet)
    {
      assert rows[..i + 1][..i] == rows[..i];
      var row := rows[i];
      if row.date.Some? && row.date.value in targetSet {
        found := found + [TradeRecord(row)];
      }
    }
    assert rows[..|rows|] == rows;
  }

  /** The pagination stops at this offset: a load error, an empty table, or a later page without target rows. */
  predicate StopsAt(fetch: int -> TradePage, offset: int, targets: set<string>)
  {
    fetch(offset).TradeFailed? || fetch(offset).rows == []
    || (|PageRecords(fetch(offset).rows, targets)| == 0 && offset > 0)
  }

  /** Where the pagination stops, the events so far are final and the offset is the last one requested. */
  lemma TradeFromStop(fetch: int -> TradePage, offset: int, targets: set<string>, before: seq<Record>, seen: seq<int>)
    requires 0 <= offset <= MaxOffset && StopsAt(fetch, offset, targets)
    ensures before + TradeFrom(fetch, offset, targets).0 == before
    ensures seen + TradeFrom(fetch, offset, targets).1 == seen + [offset]
  {
    assert before + [] == before;
  }

  /** Where it goes on, the page's events are appended and the next page follows. */
  lemma TradeFromContinue(fetch: int -> TradePage, offset: int, targets: set<string>, before: seq<Record>, seen: seq<int>)
    requires 0 <= offset <= MaxOffset && !StopsAt(fetch, offset, targets)
    ensures (before + PageRecords(fetch(offset).rows, targets)) + TradeFrom(fetch, offset + PageSize, targets).0
         == before + TradeFrom(fetch, offset, targets).0
    ensures (seen + [offset]) + TradeFrom(fetch, offset + PageSize, targets).1
         == seen + TradeFrom(fetch, offset, targets).1
  {
    var later := TradeFrom(fetch, offset + PageSize, targets);
    var found := PageRecords(fetch(offset).rows, targets);
    assert TradeFrom(fetch, offset, targets) == (found + later.0, [offset] + later.1);
    assert (before + found) + later.0 == before + (found + later.0);
    assert (seen + [offset]) + later.1 == seen + ([offset] + later.1);
  }

  /** Past the last offset nothing more is requested or collected. */
  lemma TradeFromPast(fetch: int -> TradePage, offset: int, targets: set<string>, before: seq<Record>, seen: seq<int>)
    requires offset > MaxOffset
    ensures before + TradeFrom(fetch, offset, targets).0 == before && seen + TradeFrom(fetch, offset, targets).1 == seen
  {
    assert before + [] == before && seen + [] == seen;
  }

  /** The pagination loop's invariant: what is collected so far, followed by what is still to come, is the whole. */
  ghost predicate TradeLoopInvariant(fetch: int -> TradePage, offset: int, targets: set<string>,
                                     allEvents: seq<Record>, visited: seq<int>, total: (seq<Record>, seq<int>))
  {
    && allEvents + TradeFrom(fetch, offset, targets).0 == total.0
    && visited + TradeFrom(fetch, offset, targets).1 == total.1
  }

  /**
   * One pass of the pagination loop: load the listing at `offset` and
   * collect its target-date rows; `more` says whether the loop goes on.
   */
  method VisitTradePage(fetch: int -> TradePage, offset: int, targetSet: set<string>) returns (found: seq<Record>, more: bool)
    ensures more == !StopsAt(fetch, offset, targetSet)
    ensures found == if fetch(offset).TradeLoaded? then PageRecords(fetch(offset).rows, targetSet) else []
  {
    var page := fetch(offset);
    if page.TradeFailed? {
      return [], false;
    }
    var rows := page.rows;
    if rows == [] {
      return [], false;
    }
    found := CollectTradeRows(rows, targetSet);
    more := !(|found| == 0 && offset > 0);
  }

  /** `parse_metal_trade(page, target_dates)`, given what the listing returns at each offset. */
  method ParseMetalTrade(fetch: int -> TradePage, targetDates: seq<string>) returns (allEvents: seq<Record>, visited: seq<int>)
    ensures allEvents == TradeFrom(fetch, 0, set t | t in targetDates).0
    ensures visited == TradeFrom(fetch, 0, set t | t in targetDates).1
  {
    var targetSet := set t | t in targetDates;
    ghost var total := TradeFrom(fetch, 0, targetSet);
    allEvents := [];
    visited := [];
    var pageOffset := 0;
    assert [] + total.0 == total.0 && [] + total.1 == total.1;
    while pageOffset <= MaxOffset
      invariant 0 <= pageOffset <= MaxOffset + PageSize
      invariant TradeLoopInvariant(fetch, pageOffset, targetSet, allEvents, visited, total)
      decreases MaxOffset + PageSize - pageOffset
    {
      var found, more := VisitTradePage(fetch, pageOffset, targetSet);
      if !more {
        assert allEvents == total.0 && visited + [pageOffset] == total.1 by {
          TradeFromStop(fetch, pageOffset, targetSet, allEvents, visited);
        }
        visited := visited + [pageOffset];
        return;
      }
      assert TradeLoopInvariant(fetch, pageOffset + PageSize, targetSet, allEvents + found, visited + [pageOffset], total) by {
        TradeFromContinue(fetch, pageOffset, targetSet, allEvents, visited);
      }
      visited := visited + [pageOffset];
      allEvents := allEvents + found;
      pageOffset := pageOffset + PageSize;
    }
    TradeFromPast(fetch, pageOffset, targetSet, allEvents, visited);
  }

  /** The offsets requested from `offset` on go up by one page each, and never past the last offset. */
  lemma {:induction false} TradeVisitsFrom(fetch: int -> TradePage, offset: int, targets: set<string>)
    requires offset >= 0
    ensures forall k :: 0 <= k < |TradeFrom(fetch, offset, targets).1| ==>
      TradeFrom(fetch, offset, targets).1[k] == offset + 30 * k <= MaxOffset
    decreases MaxOffset + PageSize - offset
  {
    if offset <= MaxOffset {
      TradeVisitsFrom(fetch, offset + PageSize, targets);
      var v := TradeFrom(fetch, offset, targets).1;
      var rest := TradeFrom(fetch, offset + PageSize, targets).1;
      if v != [offset] {
        assert v == [offset] + rest;
        forall k | 0 < k < |v| ensures v[k] == offset + 30 * k <= MaxOffset {
          assert v[k] == rest[k - 1];
        }
      }
    }
  }

  /** At most six pages are requested: offsets 0, 30, ..., 150, in that order. */
  lemma TradeVisitsAtMostSixPages(fetch: int -> TradePage, targets: set<string>)
    ensures |TradeFrom(fetch, 0, targets).1| <= 6
    ensures forall k :: 0 <= k < |TradeFrom(fetch, 0, targets).1| ==> TradeFrom(fetch, 0, targets).1[k] == 30 * k
  {
    TradeVisitsFrom(fetch, 0, targets);
    var v := TradeFrom(fetch, 0, targets).1;
    if v != [] {
      assert v[|v| - 1] == 30 * (|v| - 1) <= MaxOffset;
    }
  }

  /**
   * Nothing beyond a page where the pagination stops is requested: a load
   * error, an empty table, or a page after the first without target rows.
   */
  lemma {:induction false} TradeNeverPassesStop(fetch: int -> TradePage, offset: int, stop: int, targets: set<string>)
    requires 0 <= offset <= stop && (stop - offset) % PageSize == 0
    requires StopsAt(fetch, stop, targets)
    ensures forall o :: o in TradeFrom(fetch, offset, targets).1 ==> o <= stop
    decreases stop - offset
  {
    if offset <= MaxOffset {
      if StopsAt(fetch, offset, targets) {
        assert TradeFrom(fetch, offset, targets).1 == [offset];
      } else {
        NextPageNotPast(offset, stop);
        TradeNeverPassesStop(fetch, offset + PageSize, stop, targets);
        assert TradeFrom(fetch, offset, targets).1 == [offset] + TradeFrom(fetch, offset + PageSize, targets).1;
      }
    }
  }

  /** An offset a whole number of pages short of `stop` is at least a page short of it. */
  lemma NextPageNotPast(offset: int, stop: int)
    requires offset < stop && (stop - offset) % PageSize == 0
    ensures offset + PageSize <= stop && (stop - (offset + PageSize)) % PageSize == 0
  {
  }

  /** Every trade event is a potential, 70-confidence event dated on a target date, with its product as volume. */
  lemma {:induction false} PageRecordsOnTarget(rows: seq<TradeRow>, targets: set<string>)
    ensures forall e :: e in PageRecords(rows, targets) ==>
      && e.volume == e.product && e.confidence == TradeConfidence && e.status == PotentialStatus && e.source == TradeUrl
      && exists t :: t in targets && t + " " <= e.eventDate
  {
    if rows != [] {
      PageRecordsOnTarget(rows[..|rows| - 1], targets);
      var last := rows[|rows| - 1];
      if IsTargetRow(last, targets) {
        assert last.date.value + " " <= TradeRecord(last).eventDate;
      }
    }
  }

  lemma {:induction false} TradeEventsOnTarget(fetch: int -> TradePage, offset: int, targets: set<string>)
    ensures forall e :: e in TradeFrom(fetch, offset, targets).0 ==>
      && e.volume == e.product && e.confidence == TradeConfidence && e.status == PotentialStatus && e.source == TradeUrl
      && exists t :: t in targets && t + " " <= e.eventDate
    decreases MaxOffset + PageSize - offset
  {
    if offset <= MaxOffset {
      var page := fetch(offset);
      if page.TradeLoaded? && page.rows != [] {
        PageRecordsOnTarget(page.rows, targets);
        TradeEventsOnTarget(fetch, offset + PageSize, targets);
      }
    }
  }

  // ---------------------------------------------------------------------
  // Deduplication in collect_all_applications
  // ---------------------------------------------------------------------

  /**
   * The deduplication key: product, volume, event date and company joined by
   * dashes; it starts with the product and ends with the company.
   */
  function Key(r: Record): (k: string)
    ensures |k| == |r.product| + |r.volume| + |r.eventDate| + |r.company| + 3
    ensures k[..|r.product|] == r.product && k[|k| - |r.company|..] == r.company
  {
    var k := r.product + "-" + r.volume + "-" + r.eventDate + "-" + r.company;
    assert k[|k| - |r.company|..] == r.company;
    k
  }

  /**
   * The key is not injective: a dash inside a field can move across the
   * separators, so two different applications share a key, a hash and
   * therefore one place in the deduplicated list.
   */
  lemma KeyAmbiguous(r: Record)
    ensures r.(product := "a-b", volume := "c") != r.(product := "a", volume := "b-c")
    ensures Key(r.(product := "a-b", volume := "c")) == Key(r.(product := "a", volume := "b-c"))
  {
    assert "a-b" + "-" + "c" == "a" + "-" + "b-c";
  }

  function Abs(x: int): (r: nat)
    ensures r == x || r == -x
  {
    if x < 0 then -x else x
  }

  /** Python's `hash` on strings, as fixed for one run of the scraper. */
  type Hash = string -> int

  function HashOf(r: Record, hash: Hash): int
  {
    hash(Key(r))
  }

  /** A kept event, its id overwritten with the absolute value of its hash. */
  function Stamped(r: Record, hash: Hash): (s: Record)
    ensures Key(s) == Key(r) && s.id == Abs(HashOf(r, hash))
  {
    r.(id := Abs(HashOf(r, hash)))
  }

  function Hashes(es: seq<Record>, hash: Hash): set<int>
  {
    set e | e in es :: HashOf(e, hash)
  }

  /** The dedup loop from a given `seen` set on: keep and stamp each event whose hash is new. */
  function DedupFrom(es: seq<Record>, seen: set<int>, hash: Hash): (r: seq<Record>)
    ensures |r| <= |es|
  {
    if es == [] then []
    else if HashOf(es[0], hash) in seen then DedupFrom(es[1..], seen, hash)
    else [Stamped(es[0], hash)] + DedupFrom(es[1..], seen + {HashOf(es[0], hash)}, hash)
  }

  /** The dedup loop of `collect_all_applications`. */
  method Dedup(allEvents: seq<Record>, hash: Hash) returns (finalEvents: seq<Record>)
    ensures finalEvents == DedupFrom(allEvents, {}, hash)
  {
    finalEvents := [];
    var seen: set<int> := {};
    for i := 0 to |allEvents|
      invariant finalEvents + DedupFrom(allEvents[i..], seen, hash) == DedupFrom(allEvents, {}, hash)
    {
      assert allEvents[i..][0] == allEvents[i] && allEvents[i..][1..] == allEvents[i + 1..];
      var event := allEvents[i];
      var h := hash(Key(event));
      if h !in seen {
        finalEvents := finalEvents + [event.(id := Abs(h))];
        seen := seen + {h};
      }
    }
    assert allEvents[|allEvents|..] == [];
    assert finalEvents + [] == finalEvents;
  }

  lemma HashesCons(a: seq<Record>, hash: Hash)
    requires a != []
    ensures Hashes(a, hash) == {HashOf(a[0], hash)} + Hashes(a[1..], hash)
  {
    assert a == [a[0]] + a[1..];
    assert forall x :: x in a <==> x == a[0] || x in a[1..];
  }

  lemma {:induction false} DedupAppend(a: seq<Record>, b: seq<Record>, seen: set<int>, hash: Hash)
    ensures DedupFrom(a + b, seen, hash) == DedupFrom(a, seen, hash) + DedupFrom(b, seen + Hashes(a, hash), hash)
  {
    if a == [] {
      assert a + b == b && seen + Hashes(a, hash) == seen;
    } else {
      var h := HashOf(a[0], hash);
      var seen' := if h in seen then seen else seen + {h};
      var rest := a[1..];
      assert (a + b)[0] == a[0] && (a + b)[1..] == rest + b;
      DedupAppend(rest, b, seen', hash);
      HashesCons(a, hash);
      assert seen' + Hashes(rest, hash) == seen + Hashes(a, hash);
      if h !in seen {
        var first := Stamped(a[0], hash);
        var kept := DedupFrom(rest, seen', hash);
        var tail := DedupFrom(b, seen + Hashes(a, hash), hash);
        assert DedupFrom(a + b, seen, hash) == [first] + DedupFrom(rest + b, seen', hash);
        assert [first] + (kept + tail) == ([first] + kept) + tail;
      }
    }
  }

  /**
   * Appending an event keeps it, stamped, exactly when no earlier event had
   * the same hash: the output is the first event of each hash, in input order.
   */
  lemma DedupKeepsFirstOccurrence(es: seq<Record>, e: Record, hash: Hash)
    ensures DedupFrom(es + [e], {}, hash)
         == DedupFrom(es, {}, hash) + (if HashOf(e, hash) in Hashes(es, hash) then [] else [Stamped(e, hash)])
  {
    DedupAppend(es, [e], {}, hash);
    assert {} + Hashes(es, hash) == Hashes(es, hash);
    assert [e][1..] == [];
  }

  /** Every kept event has a hash that was not seen before and occurs in the input, and its id is that hash's absolute value. */
  lemma {:induction false} DedupKeptHashes(es: seq<Record>, seen: set<int>, hash: Hash)
    ensures forall r :: r in DedupFrom(es, seen, hash) ==>
      r.id == Abs(HashOf(r, hash)) && HashOf(r, hash) !in seen && HashOf(r, hash) in Hashes(es, hash)
  {
    if es != [] {
      var h := HashOf(es[0], hash);
      HashesCons(es, hash);
      if h in seen {
        DedupKeptHashes(es[1..], seen, hash);
      } else {
        DedupKeptHashes(es[1..], seen + {h}, hash);
      }
    }
  }

  /** The hashes of the output are exactly the input hashes not already seen. */
  lemma {:induction false} DedupHashSet(es: seq<Record>, seen: set<int>, hash: Hash)
    ensures Hashes(DedupFrom(es, seen, hash), hash) == Hashes(es, hash) - seen
  {
    if es != [] {
      var h := HashOf(es[0], hash);
      HashesCons(es, hash);
      if h in seen {
        DedupHashSet(es[1..], seen, hash);
      } else {
        var rest := DedupFrom(es[1..], seen + {h}, hash);
        DedupHashSet(es[1..], seen + {h}, hash);
        var r := DedupFrom(es, seen, hash);
        assert r == [Stamped(es[0], hash)] + rest;
        HashesCons(r, hash);
        assert r[1..] == rest;
      }
    }
  }

  /** No two kept events share a hash. */
  lemma {:induction false} DedupDistinctHashes(es: seq<Record>, seen: set<int>, hash: Hash)
    ensures forall i, j :: 0 <= i < j < |DedupFrom(es, seen, hash)| ==>
      HashOf(DedupFrom(es, seen, hash)[i], hash) != HashOf(DedupFrom(es, seen, hash)[j], hash)
  {
    if es != [] {
      var h := HashOf(es[0], hash);
      if h in seen {
        DedupDistinctHashes(es[1..], seen, hash);
      } else {
        var first, rest := Stamped(es[0], hash), DedupFrom(es[1..], seen + {h}, hash);
        assert forall e :: e in rest ==> HashOf(e, hash) != HashOf(first, hash) by {
          DedupKeptHashes(es[1..], seen + {h}, hash);
        }
        DedupDistinctHashes(es[1..], seen + {h}, hash);
        DistinctHashesCons(first, rest, hash);
        assert DedupFrom(es, seen, hash) == [first] + rest;
      }
    }
  }

  /** An event whose hash no later event has, put in front of events with distinct hashes, keeps them distinct. */
  lemma DistinctHashesCons(first: Record, rest: seq<Record>, hash: Hash)
    requires forall e :: e in rest ==> HashOf(e, hash) != HashOf(first, hash)
    requires forall i, j :: 0 <= i < j < |rest| ==> HashOf(rest[i], hash) != HashOf(rest[j], hash)
    ensures forall i, j :: 0 <= i < j < |[first] + rest| ==>
      HashOf(([first] + rest)[i], hash) != HashOf(([first] + rest)[j], hash)
  {
    var r := [first] + rest;
    forall i, j | 0 <= i < j < |r| ensures HashOf(r[i], hash) != HashOf(r[j], hash) {
      assert r[j] == rest[j - 1] && r[j] in rest;
      if i > 0 {
        assert r[i] == rest[i - 1];
      }
    }
  }

  /** Every input hash occurs in the output, no hash occurs twice, and the output is no longer than the input. */
  lemma DedupComplete(es: seq<Record>, hash: Hash)
    ensures Hashes(DedupFrom(es, {}, hash), hash) == Hashes(es, hash)
    ensures |DedupFrom(es, {}, hash)| == |Hashes(es, hash)| <= |es|
  {
    var r := DedupFrom(es, {}, hash);
    DedupHashSet(es, {}, hash);
    DedupDistinctHashes(es, {}, hash);
    DistinctHashesCount(r, hash);
    assert Hashes(es, hash) - {} == Hashes(es, hash);
  }

  lemma {:induction false} DistinctHashesCount(r: seq<Record>, hash: Hash)
    requires forall i, j :: 0 <= i < j < |r| ==> HashOf(r[i], hash) != HashOf(r[j], hash)
    ensures |Hashes(r, hash)| == |r|
  {
    if r != [] {
      DistinctHashesTail(r, hash);
      DistinctHashesCount(r[1..], hash);
      HashesCons(r, hash);
    }
  }

  /** Dropping the first event keeps the hashes distinct, and the first hash occurs in no later event. */
  lemma DistinctHashesTail(r: seq<Record>, hash: Hash)
    requires r != []
    requires forall i, j :: 0 <= i < j < |r| ==> HashOf(r[i], hash) != HashOf(r[j], hash)
    ensures forall i, j :: 0 <= i < j < |r[1..]| ==> HashOf(r[1..][i], hash) != HashOf(r[1..][j], hash)
    ensures HashOf(r[0], hash) !in Hashes(r[1..], hash)
  {
    var rest := r[1..];
    assert forall i :: 0 <= i < |rest| ==> rest[i] == r[i + 1];
    forall x | x in rest ensures HashOf(x, hash) != HashOf(r[0], hash) {
      var i :| 0 <= i < |rest| && rest[i] == x;
    }
  }

  /** Two events whose hashes differ only in sign are both kept, with the same id. */
  lemma AbsCollision(a: Record, b: Record, hash: Hash)
    requires HashOf(a, hash) == -HashOf(b, hash) != 0
    ensures var r := DedupFrom([a, b], {}, hash); |r| == 2 && r[0].id == r[1].id
  {
    assert [a, b][1..] == [b] && [b][1..] == [];
  }

  /**
   * `collect_all_applications()` for the local day `today`: the MetalTrade
   * events, then the MetalInfo events, deduplicated.
   */
  method CollectAllApplications(today: int, fetchTrade: int -> TradePage, boardPages: seq<BoardPage>, hash: Hash)
    returns (finalEvents: seq<Record>)
    requires TargetDaysExist(today)
    requires |boardPages| == BoardPageCount
    ensures var targetDates := GetTargetDates(today);
      finalEvents == DedupFrom(
        TradeFrom(fetchTrade, 0, set t | t in targetDates).0
        + ScanBoard(boardPages, BoardScan(None, []), TargetPatterns(targetDates)).events, {}, hash)
  {
    var targetDates := GetTargetDates(today);
    var tradeEvents, _ := ParseMetalTrade(fetchTrade, targetDates);
    var boardEvents := ParseMetalInfoBoard(boardPages, targetDates);
    finalEvents := Dedup(tradeEvents + boardEvents, hash);
  }
}
