/**
 * The records the dashboard and the scraper exchange (types.ts), and the
 * scraper's own dictionaries (parser.py).
 */
module Types {
  import opened Common

  /**
   * `EventData.status`. The type admits three values, but records read from
   * the cache or the scraper are untyped JSON, so any other string can occur.
   */
  datatype Status = Urgent | Potential | Confirmed | Unrecognised(raw: string)

  /**
   * The string a status is written as in JSON. The dashboard compares these
   * strings, so a value such as `Unrecognised("urgent")` behaves as urgent.
   */
  function StatusText(s: Status): string
  {
    match s
    case Urgent => "urgent"
    case Potential => "potential"
    case Confirmed => "confirmed"
    case Unrecognised(raw) => raw
  }

  /** The `status` string of a JSON record as `EventData.status`: the three known strings are never left unrecognised. */
  function StatusOf(raw: string): (s: Status)
    ensures StatusText(s) == raw
    ensures s.Unrecognised? <==> raw != "urgent" && raw != "potential" && raw != "confirmed"
  {
    if raw == "urgent" then Urgent
    else if raw == "potential" then Potential
    else if raw == "confirmed" then Confirmed
    else Unrecognised(raw)
  }

  /**
   * `EventData` as it lives in the dashboard. Both date fields are optional:
   * the declared field is `event_date` (`eventDate` here), the field the
   * chart reads is `date`, and which one a record carries depends on the
   * path it arrived by. `confidence` is optional because the cache and the
   * scraper are untyped.
   */
  datatype Event = Event(
    id: int,
    product: string,
    company: string,
    region: string,
    volume: string,
    intent: Option<string>,
    eventDate: Option<string>,
    date: Option<string>,
    status: Status,
    confidence: Option<int>,
    source: Option<string>)

  datatype Trend = Up | Down | Neutral

  /** `MetricData`, with the `icon` that the initial metrics carry. */
  datatype Metric = Metric(key: string, title: string, value: int, change: int, trend: Trend, icon: string)

  /** A scraped application as parser.py builds it: every key is always present. */
  datatype Record = Record(
    id: int,
    product: string,
    company: string,
    region: string,
    volume: string,
    eventDate: string,
    status: string,
    confidence: int,
    source: string)
}
