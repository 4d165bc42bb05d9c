# Deal-events dashboard and scraper, modelled in Dafny

The system is a React dashboard over "deal events": applications to buy metal
that a Python scraper collects from two trading boards. This model covers:

- **App** (`App.tsx`): the root component. It owns the list of events and the
  three KPI metrics. Whenever events enter the list it re-draws each one's
  confidence from {80, 85, 90, 95, 100} and derives the status from it. It
  merges a freshly collected batch in front of the previous events and drops
  the ones the batch supersedes by id. It recounts the KPIs, and it lets the
  parsing page overwrite `total_base`. The dashboard page is given only the
  first 50 events.
- **Dashboard** (`pages/Dashboard.tsx`): the weekly trend chart. It parses
  `DD.MM.YYYY HH:MM` dates with an unanchored regular expression, finds the
  Monday of the viewed week and counts the events of each day of that week.
  It also holds the week-navigation offset, which never moves into the future.
- **EventsList** (`pages/EventsList.tsx`): the case-insensitive filter over
  product and company, and the Russian status labels.
- **Parser** (`parser.py`): the scraper.
  - The target dates: yesterday and today, and on a Monday also the Friday,
    Saturday and Sunday before it.
  - The MetalInfo bulletin board as a header/bulletin state machine.
  - The MetalTrade listing with its pagination bound.
  - The first-occurrence deduplication, which stamps `id = abs(hash(key))`.
- **Pipeline**: lemmas across the files about how a scraped record reaches
  the chart.
  - The chart reads the field `date`. Scraped records carry `event_date`, and
    only the cache-load path renames it.
  - A record read back from the cache therefore counts on the day it names.
  - The same record merged from the collect button counts on no day at all.
  - A collect of 50 or more records empties the chart.

  This behaviour of the source is reproduced, not repaired.

Supporting modules:

- **Common**: `filter`, `slice(0, n)`, substring containment and decimal
  digits.
- **Types**: the records the dashboard and the scraper exchange.
- **Calendar**: dates as integer day numbers, with day 0 being 1970-01-01,
  together with the JavaScript and Python weekday conventions.

Impure inputs are supplied as parameters:

- the current time;
- `Math.random`, as one index per event;
- Python's `hash`;
- `toLowerCase`;
- the generic `new Date(text)` parse;
- the contents of the scraped pages.

The component state (`events`, `metrics`, `isLoading`) is the class
`App.AppState`. The week offset is the class `Dashboard.WeekNavigator`. The
loops of the source are methods with loop invariants:

- the seven-bucket aggregation;
- the board scan over pages, items and patterns;
- the MetalTrade pagination;
- the dedup loop.

Each of these methods is proved equal to a recursive specification function,
and the source's promises are proved about those functions.

## Model

| member | source | states |
|---|---|---|
| App.RandomConfidence | App.tsx:46-51 | every draw index in [0, 4] yields a confidence in {80, 85, 90, 95, 100} |
| App.EveryConfidenceDrawable | App.tsx:46-51 | conversely, each of the five confidences is drawn by some index |
| App.SetRandomConfidenceAndStatus | App.tsx:54-66 | confidence is the drawn value; status is urgent exactly when the confidence is at least 90, otherwise potential, never confirmed; every other field is copied |
| App.AssignAll | App.tsx:165 | mapping assignment over a batch keeps its length and ids; element i is assigned with draw i and otherwise unchanged |
| App.Merged | App.tsx:162-175 | the merged list is the assigned batch in its order, followed by a subsequence of the previous list holding exactly the previous events whose id is not in the batch, each as many times as it occurred before |
| App.MergeKeepsDistinctIds | App.tsx:167-175 | if the previous list and the batch each have distinct ids, so does the merged list |
| App.MergeKeepsBatchDuplicates | App.tsx:165-175 | two batch events with the same id both survive, so the merged list is not id-unique |
| App.MergeKeepsEveryId | App.tsx:167-175 | the ids of the merged list are the batch ids together with the previous ids |
| App.MergeKeepsAssigned | App.tsx:165-175 | if every previous event had been assigned, every merged event is assigned |
| App.SupersessionExample | App.tsx:167-175 | a new version of id 5 replaces the old one at the front, and id 6 follows unchanged |
| App.InWork | App.tsx:82-84 | an event is in work exactly when its status text is one of the three statuses the JSON reading recognises |
| App.IsUrgentSignal | App.tsx:88 | `e.confidence && e.confidence >= 90` holds exactly when a confidence is present and at least 90 |
| App.Kpi | App.tsx:92-103 | exactly orders_in_work, urgent_signals and total_base are recounted, each to a value between 0 and the number of events |
| App.Recalculated | App.tsx:79-105 | the recount keeps length, order and keys, changes only the value field, sets orders_in_work, total_base and urgent_signals to their counts, and leaves other keys alone |
| App.RecalculatedLastWins | App.tsx:92-105 | a recount followed by a recount equals the last recount alone, so recounting is idempotent |
| App.OrdersInWorkVersusTotal | App.tsx:80-85 | orders_in_work is at most total_base, with equality exactly when every status is urgent, confirmed or potential |
| App.UrgentSignalsCountUrgent | App.tsx:88 | on a list whose events were all assigned on entry, urgent_signals counts exactly the urgent events |
| App.RecalculatedTracks | App.tsx:79-105 | metrics keyed like the initial ones keep their keys, and after a recount hold the in-work count, the urgent-signal count and the list length |
| App.RecalculatedInitial | App.tsx:18-43 | from the initial metrics, a recount gives the three counts, keeping titles, icons and trends |
| App.RecountExample | App.tsx:79-105 | urgent/92, potential/75 and confirmed/99 give 3 in work, 2 urgent signals and a base of 3 |
| App.WithTotalBase | App.tsx:187-196 | with totalParsed present, only the value of the total_base entries becomes totalParsed; when it is absent the metrics are unchanged |
| App.TotalBaseLastWriterWins | App.tsx:179-196 | of the two writers of total_base, the one that runs last decides its value |
| App.Normalized | App.tsx:127-132 | cache normalisation moves event_date into date and clears event_date; nothing else changes |
| App.NormalizedAll | App.tsx:127-132 | normalisation applies to each cached record in order |
| App.AppState.constructor | App.tsx:73-75 | the initial state is no events, the initial metrics, and loading |
| App.AppState.RecalculateMetrics | App.tsx:79-106 | metrics become the recount of the given events; events and loading are unchanged; when the given events are the state's own, the metrics agree with them |
| App.AppState.UrgentSignalCount | App.tsx:88 | in a consistent state, the urgent_signals metric is the number of urgent events |
| App.AppState.LoadCachedEvents | App.tsx:112-148 | a non-empty cache body replaces the list with the normalised, assigned records and recounts; otherwise nothing changes; loading always ends; the invariant is kept |
| App.AppState.HandleNewEventsCollected | App.tsx:162-184 | events become the merge of the previous list and the batch, and metrics the recount of the merged list; the invariant is kept |
| App.AppState.HandleDashboardUpdate | App.tsx:187-198 | metrics get the total_base override; events are unchanged |
| App.AppState.DashboardEvents | App.tsx:216 | the dashboard receives the prefix of length min(50, n) of the n events |
| Calendar.DaysInMonth | parser.py:37-50 | a month has 28 to 31 days, and 29 exactly for February of a Gregorian leap year |
| Calendar.LeapCycle | parser.py:37-50 | the leap-year rule repeats every 400 years |
| Calendar.MonthOfYearInMonth | parser.py:37-50 | a day of the March-based year lands on a day that exists in its month |
| Calendar.CivilFromDays | parser.py:37-50 | the civil date of a day number is a date that exists (month 1..12, day within that month's length) and maps back to that day number |
| Calendar.JsWeekday | pages/Dashboard.tsx:43 | getDay lies in 0..6 |
| Calendar.PyWeekday | parser.py:41 | weekday lies in 0..6 and is getDay shifted so that Monday is 0 |
| Calendar.MakeDay | pages/Dashboard.tsx:21-27 | for a month index in 0..11, `new Date` lands on the day number of the civil date (year, index + 1, day) |
| Calendar.LocalDay | pages/Dashboard.tsx:86 | clearing the time keeps the date's own day when its clock time lies inside the day, and never moves a date with a non-negative time before that day |
| Calendar.SetDateShiftsDay | pages/Dashboard.tsx:51 | setDate(x) moves the local day by x minus the old day of the month |
| Dashboard.JsDate | pages/Dashboard.tsx:21-27 | the Date constructor keeps the fields, except that a year in 0..99 becomes 1900 to 1999 |
| Dashboard.EventDay | pages/Dashboard.tsx:81-86 | a missing or empty date gives no day; a day exists exactly when parseCustomDate gives a date |
| Dashboard.FirstMatch | pages/Dashboard.tsx:16 | the leftmost position where the date pattern matches, or None when it matches nowhere |
| Dashboard.ParseCustomDate | pages/Dashboard.tsx:12-36 | null for a missing or empty text; the generic parse when the pattern matches nowhere; otherwise a date whose fields are two-digit values |
| Dashboard.ParseReadsLeftmostMatch | pages/Dashboard.tsx:16-27 | whatever surrounds the leftmost match, the result is built from that match's fields |
| Dashboard.FieldsOfMatch | pages/Dashboard.tsx:21-27 | the year is YYYY (two-digit years read as 19YY), the month index is MM-1, then the day, hour and minute are DD, HH and mm |
| Dashboard.ParseWholeMatch | pages/Dashboard.tsx:16-27 | a text that is exactly one match parses to its digit fields |
| Dashboard.ParseExample | pages/Dashboard.tsx:15-27 | "15.12.2025 15:43" parses to 15 December 2025 (month index 11), 15:43 |
| Dashboard.ParseNoRangeChecks | pages/Dashboard.tsx:16-27 | "99.99.0099 99:99" is accepted as is, with the year landing in 1999 |
| Dashboard.ParseNotADate | pages/Dashboard.tsx:29-35 | a text without the pattern on which the generic parse fails gives null |
| Dashboard.MondayBasedWeekday | pages/Dashboard.tsx:43-46 | Sunday is remapped to 7, so the weekday lies in 1..7 and agrees with getDay modulo 7 |
| Dashboard.WeekStart | pages/Dashboard.tsx:40-54 | the start is a Monday, and moved back by offset weeks its week contains today |
| Dashboard.WeekStartUnique | pages/Dashboard.tsx:40-54 | only one Monday has that property |
| Dashboard.WeekStartShift | pages/Dashboard.tsx:49-51 | the start for any offset is the start for 0 plus 7 times the offset |
| Dashboard.WeekStartExample | pages/Dashboard.tsx:40-54 | on Wednesday 17 December 2025 the weeks start on 15 December (offset 0) and on 8 December (offset -1) |
| Dashboard.GetStartOfWeek | pages/Dashboard.tsx:40-54 | stepping back with setDate and clearing the time yields WeekStart of today's local day |
| Dashboard.EmptyWeek | pages/Dashboard.tsx:60-76 | the first loop builds seven buckets Пн..Вс, each at 0 and labelled for its day |
| Dashboard.TallyEvent | pages/Dashboard.tsx:79-98 | one event raises by one the bucket of its day if that day is in the week, and changes nothing else |
| Dashboard.AggregateEventsByDay | pages/Dashboard.tsx:57-103 | seven buckets Пн..Вс, where bucket i counts the events on day start+i, and the buckets add up to the events in [start, start+7) |
| Dashboard.BucketsAddUpToWeek | pages/Dashboard.tsx:86-98 | buckets that count the seven days add up to the count for the week |
| Dashboard.DayCountsPartitionWeek | pages/Dashboard.tsx:86-98 | the seven day counts add up to the week count: each in-week event falls on exactly one day |
| Dashboard.CountOnDayAppend | pages/Dashboard.tsx:79-100 | day counts add up over concatenation |
| Dashboard.UndatedEventsCountNowhere | pages/Dashboard.tsx:81-83 | events whose date is missing or unparseable count on no day |
| Dashboard.WeekNavigator.constructor | pages/Dashboard.tsx:150 | the offset starts at 0 |
| Dashboard.WeekNavigator.PrevWeek | pages/Dashboard.tsx:162-164 | the offset goes back one week, always |
| Dashboard.WeekNavigator.NextWeek | pages/Dashboard.tsx:166-171 | the offset goes forward only while it is negative, so it never exceeds 0 |
| Dashboard.HotEvents | pages/Dashboard.tsx:196-198 | a prefix of the events of length min(2, n) |
| EventsList.FilterEvents | pages/EventsList.tsx:37-42 | a subsequence of the events holding exactly those whose lowered product or company contains the lowered filter, each as many times as in the list |
| EventsList.EmptyFilterKeepsAll | pages/EventsList.tsx:35-41 | the initial empty filter keeps every event |
| EventsList.FilterEventsIdempotent | pages/EventsList.tsx:37-42 | filtering the filtered list again changes nothing |
| EventsList.RefinedFilterNarrows | pages/EventsList.tsx:37-42 | a filter that extends the previous one gives the same result whether applied to the previous result or to all events, and never more events |
| EventsList.GetStatusLabel | pages/EventsList.tsx:22-31 | Срочно exactly for the status text urgent, Подтвержден exactly for confirmed, Потенциал exactly for every other text |
| Parser.TargetDays | parser.py:36-53 | on a Monday the days are today-1, today-2, today-3 and today, and on other days today-1 and today |
| Parser.TargetDaysWindow | parser.py:41-50 | every target lies in [today-3, today]; today and yesterday are always included; no day repeats; today-3 only on a Monday |
| Parser.TargetDatesExample | parser.py:41-47 | Monday 15 December 2025 targets the 14th, 13th, 12th and 15th |
| Parser.FormatDate | parser.py:43-50 | the %d.%m.%Y text is ten characters with dots at positions 2 and 5 |
| Parser.ParseTargetDate | parser.py:180 | strptime with %d.%m.%Y accepts only months 1..12 and days 1..31 |
| Parser.FormatParseRoundTrip | parser.py:179-181 | strptime of a formatted date gives back that date |
| Parser.FormatDateDigits | parser.py:43-50 | the digits of a formatted date spell its day, month and four-digit year |
| Parser.FormatDateInjective | parser.py:42-50 | distinct dates format to distinct strings |
| Parser.GetTargetDates | parser.py:36-53 | one string per target day, each of which strptime reads back as that day |
| Parser.FormatDaysParse | parser.py:179-181 | each formatted day parses back to that day |
| Parser.NatText | parser.py:181 | str of a natural number is a non-empty run of digits |
| Parser.NatTextRoundTrip | parser.py:181 | int(str(n)) is n |
| Parser.TargetPatterns | parser.py:178-181 | each target date is paired, in order, with "day month-in-genitive" of the date it parses to |
| Parser.TargetPatternExample | parser.py:172-181 | 15.12.2025 gives "15 декабря", and 01.12.2025 gives the unpadded "1 декабря" |
| Parser.TargetDateOf | parser.py:36-53 | each target date string is the formatted date of one of the target days |
| Parser.MatchTarget | parser.py:199-203 | None exactly when the header contains no pattern; otherwise the date of the first pattern it contains |
| Parser.MatchHeader | parser.py:197-203 | the pattern loop returns the first matching target, as MatchTarget does |
| Parser.ScanStep | parser.py:197-225 | a header sets the current target to what it matches; any other item keeps it; the events grow by one exactly for a bulletin under a target, and are otherwise unchanged |
| Parser.ScanBoard | parser.py:187-231 | the scan only appends events, and stops, changing nothing, at a page that fails to load or has no items |
| Parser.ScanBoardPage | parser.py:194-225 | the item loop of one page performs the scan of its items, carrying the current target date in and out |
| Parser.ParseMetalInfoBoard | parser.py:168-233 | the events are those of the scan over the five pages in order, stopping at the first page that fails to load or has no items |
| Parser.CurrentAfterHeader | parser.py:197-205 | until the next header, the current target is what the last header matched |
| Parser.BulletinFollowsNearestHeader | parser.py:205-225 | a bulletin is emitted exactly when its nearest header matched a target; it then carries that date and the following description as its volume, else Не указано |
| Parser.ScanRowsSound | parser.py:197-225 | scanning keeps the current target one of the target dates, and every emitted event a board event |
| Parser.BoardEventsCarryTarget | parser.py:215-225 | every board event has id 0, status potential, confidence 55, the board URL, and an event_date that begins with a target date |
| Parser.HeaderMatchIsSubstring | parser.py:201 | matching is by substring, so the pattern "1 декабря" also matches the header "21 декабря" |
| Parser.BoardScanExample | parser.py:187-231 | a scan example: one match with description volume, a cleared target, the target carried over to the next page, and the stop at a failing page |
| Parser.PageRecords | parser.py:100-146 | a page yields no more events than it has rows |
| Parser.CollectTradeRows | parser.py:100-146 | the row loop collects the events of the target-date rows, in order |
| Parser.VisitTradePage | parser.py:87-155 | one page visit returns the page's events, and continues unless the load failed, the table was empty, or a later page had no target rows |
| Parser.TradeFrom | parser.py:83-155 | a page is requested first exactly when its offset is at most 150 |
| Parser.TradeFromPast | parser.py:83 | past offset 150 nothing is collected and nothing is requested |
| Parser.TradeFromStop | parser.py:94-153 | where pagination stops, nothing more is collected and the offset is the last one requested |
| Parser.TradeFromContinue | parser.py:146-155 | where pagination continues, the page's events come first and the next page follows |
| Parser.ParseMetalTrade | parser.py:72-162 | the events and requested offsets are those of the pagination specification from offset 0 |
| Parser.TradeVisitsFrom | parser.py:78-83 | the offsets requested from some offset onward go up one page at a time and never pass 150 |
| Parser.TradeVisitsAtMostSixPages | parser.py:78-83 | at most six pages are requested: offsets 0, 30, ..., 150 in that order |
| Parser.TradeNeverPassesStop | parser.py:94-160 | no offset beyond a page where pagination stops is requested |
| Parser.PageRecordsOnTarget | parser.py:108-145 | every trade event of a page has its product as volume, confidence 70, status potential, the listing URL, and a target date at the start of event_date |
| Parser.TradeEventsOnTarget | parser.py:72-162 | the same holds for every event the pagination collects |
| Parser.Key | parser.py:268 | the key is the four fields joined by three dashes: it starts with the product and ends with the company |
| Parser.KeyAmbiguous | parser.py:268 | a dash inside a field makes two different records share a key |
| Parser.Stamped | parser.py:271 | a kept event keeps its key and gets id abs(hash) |
| Parser.DedupFrom | parser.py:263-273 | the dedup output is no longer than its input |
| Parser.Dedup | parser.py:263-276 | the dedup loop computes the first-occurrence specification from an empty seen set |
| Parser.DedupAppend | parser.py:266-273 | dedup of a concatenation is dedup of the first part, then dedup of the second part given the first part's hashes |
| Parser.DedupKeepsFirstOccurrence | parser.py:266-273 | an appended event is kept, stamped, exactly when no earlier event had its hash, so the output keeps the first event of each hash in input order |
| Parser.DedupKeptHashes | parser.py:268-273 | every kept event's id is abs of its hash, and that hash is new and occurs in the input |
| Parser.DedupHashSet | parser.py:264-273 | the output's hashes are exactly the input hashes not seen before |
| Parser.DedupDistinctHashes | parser.py:264-273 | no two kept events share a hash |
| Parser.DedupComplete | parser.py:264-273 | every input hash occurs in the output, and the output length equals the number of distinct hashes, at most the input length |
| Parser.AbsCollision | parser.py:269-271 | two events whose hashes differ only in sign are both kept, with the same id |
| Parser.CollectAllApplications | parser.py:239-276 | the result is the dedup of the MetalTrade events followed by the MetalInfo events, for the target dates of today |
| Types.StatusOf | types.ts:13 | a JSON status string reads as the matching status, and any other string as unrecognised, keeping its text |
| Pipeline.RecordToEvent | types.ts:5-16 | a scraped record arrives with event_date set and date absent, with its id, status and confidence |
| Pipeline.RecordsToEvents | types.ts:5-16 | each record of a batch is converted in order |
| Pipeline.ClockTimeOfDay | pages/Dashboard.tsx:21-27 | a date built from a clock time on a calendar day falls on that day |
| Pipeline.ScrapedDateMatches | parser.py:141 | a scraped event_date is one match of the dashboard's pattern, and its fields are the date and the clock time |
| Pipeline.ScrapedDateFields | pages/Dashboard.tsx:16-27 | a scraped event_date parses to the fields of its date and clock time |
| Pipeline.ScrapedDateParses | pages/Dashboard.tsx:12-36 | a scraped event_date parses, for years from 100 on, to a time on the day it names |
| Pipeline.RecordDayByPath | App.tsx:127-175 | the same record counts on its day when read back from the cache, and on no day when merged from a collect |
| Pipeline.TargetRowDate | parser.py:104-113 | a kept MetalTrade row carries the formatted date of one of the target days |
| Pipeline.TradeRecordOnTargetDay | parser.py:135-145 | a MetalTrade event falls on one of the target days through the cache path, and on no day through the collect path |
| Pipeline.AssignedRecordsCountNowhere | pages/Dashboard.tsx:81-83 | no event of a freshly assigned batch of scraped records counts on any day |
| Pipeline.MergedChartCountsOnlyRetained | App.tsx:165-175 | after a collect, every day count comes from the retained previous events alone |
| Pipeline.LargeCollectEmptiesChart | App.tsx:216 | a collect of 50 or more records leaves nothing for the chart to count |
| Pipeline.SmallCollectShowsRetainedPrefix | App.tsx:216 | a smaller collect leaves on the chart only the first 50 - n retained events |

## Left out

- Rendering is not modelled. This covers JSX, Tailwind classes, the tooltip, the recharts wiring, the KPI-card layout and `getStatusClasses`: they are presentation only.
- The generic `new Date(text)` fallback is a caller-supplied partial function (`Dashboard.Fallback`): its behaviour is JavaScript library code.
- `toLocaleDateString` is not modelled. Buckets keep the day number that `dateKey` is formatted from, and the week title is left out: locale formatting is library code.
- Instants are whole local days plus hours and minutes. Milliseconds, time zones and daylight-saving shifts in the `MS_PER_DAY` arithmetic are not modelled. `getTime` comparisons become day-number comparisons, which agree when every day has 24 hours.
- `Math.random` is replaced by one supplied index in [0, 4] per event.
- React scheduling is not modelled: `useState` updater timing, `useMemo`/`useCallback` and the async fetch. The two writers of `total_base` are sequential method calls.
- The `isMounted` guard is not modelled. `LoadCachedEvents` assumes the component is still mounted.
- Fetching the cache is reduced to its outcome (`App.CacheResponse`), because it is network I/O. The console logging is left out.
- The parsing page's `e.id || generateUniqueId()` and `totalParsed: 503 + n` are inputs: the batch handed to the merge and the value handed to the override.
- Parts of the scraper are not modelled: Playwright navigation, selectors and their timeouts, `time.sleep`, `save_events_to_cache`, and the JSON printed on stdout. They are browser, file and process I/O.
- Scraped pages are lists of rows already classified and extracted. Product, company, region and time come as fields, and `.strip()` is taken as already applied. The MetalTrade date regex is reduced to the row's date and time fields.
- An exception part-way through a page is not modelled. A page either loads with all its rows or fails as a whole, which ends that board's scan.
- A failing Playwright launch is not modelled: in `collect_all_applications` both boards then yield nothing.
- Python's `hash` is a function parameter, fixed for one run. Its per-process randomisation means ids differ between runs.
- `toLowerCase` is a function parameter. `EventsList.EmptyFilterKeepsAll` assumes it maps the empty string to itself, which it does.
- The empty-list message of the events page is not modelled, since it is presentation only.
- Parser.ParseTargetDate: only the two-digit, two-digit, four-digit form is read, and it accepts 31 February. Its inputs are always outputs of `strftime`, which the round-trip lemma covers.
- Parser.FormatDate: years are padded to four digits. Python's `%Y` does not pad years below 1000 on every platform, and such years are never targets.
- Pipeline.ScrapedDateParses: stated for years from 100 on. The `Date` constructor maps years 0 to 99 to 1900 to 1999, which `Dashboard.ParseNoRangeChecks` shows.
- JavaScript numbers are unbounded integers here, since every count and date field of the model stays far below 2^53. Ids are the exception, see the next line.
- Pipeline.RecordToEvent: the id is kept exactly. The scraper's ids are `abs(hash(key))`, up to 2^63, and `JSON.parse` rounds those above 2^53 to a double, so two distinct ids can arrive equal and then supersede each other in the merge (`newEventIds.has`); this rounding is not modelled.
- The Express server (`server.js`), the chat client (`services/api.ts`), the theme context and the mock data are not modelled: they are I/O or static data.
