/**
 * The applications list (pages/EventsList.tsx): the free-text filter over
 * product and company, and the Russian label shown for each status.
 * `String.prototype.toLowerCase` is a function parameter.
 */
module EventsList {
  import opened Common
  import opened Types

  /** `toLowerCase`: Unicode case mapping is left to the caller. */
  type Lower = string -> string

  /** The filter box's test: the lowered product or company contains the lowered filter text. */
  predicate Matches(e: Event, filter: string, lower: Lower)
  {
    Contains(lower(e.product), lower(filter)) || Contains(lower(e.company), lower(filter))
  }

  /**
   * `filteredEvents`: the events whose product or company contains the
   * filter text, ignoring case, in their order in `events`.
   */
  function FilterEvents(events: seq<Event>, filter: string, lower: Lower): (r: seq<Event>)
    ensures IsSubsequence(r, events)
    ensures forall e :: e in r <==> e in events && Matches(e, filter, lower)
    ensures forall e :: multiset(r)[e] == if Matches(e, filter, lower) then multiset(events)[e] else 0
  {
    FilterMultiplicity(events, e => Matches(e, filter, lower));
    Filter(events, e => Matches(e, filter, lower))
  }

  /** The initial, empty filter shows every event (given that lowering the empty string leaves it empty). */
  lemma EmptyFilterKeepsAll(events: seq<Event>, lower: Lower)
    requires lower("") == ""
    ensures FilterEvents(events, "", lower) == events
  {
    forall e | e in events
      ensures Matches(e, "", lower)
    {
      ContainsEmpty(lower(e.product));
    }
    FilterKeepsAll(events, e => Matches(e, "", lower));
  }

  /** Applying the same filter to the filtered list changes nothing. */
  lemma FilterEventsIdempotent(events: seq<Event>, filter: string, lower: Lower)
    ensures FilterEvents(FilterEvents(events, filter, lower), filter, lower) == FilterEvents(events, filter, lower)
  {
    FilterIdempotent(events, e => Matches(e, filter, lower));
  }

  /**
   * Typing more into the box narrows the list: when the new lowered filter
   * contains the old one, filtering the already filtered list by the new
   * text gives exactly the new result.
   */
  lemma RefinedFilterNarrows(events: seq<Event>, older: string, newer: string, lower: Lower)
    requires Contains(lower(newer), lower(older))
    ensures FilterEvents(FilterEvents(events, older, lower), newer, lower) == FilterEvents(events, newer, lower)
    ensures |FilterEvents(events, newer, lower)| <= |FilterEvents(events, older, lower)|
  {
    forall e | e in events && Matches(e, newer, lower)
      ensures Matches(e, older, lower)
    {
      if Contains(lower(e.product), lower(newer)) {
        ContainsTransitive(lower(e.product), lower(newer), lower(older));
      } else {
        ContainsTransitive(lower(e.company), lower(newer), lower(older));
      }
    }
    FilterNarrow(events, e => Matches(e, older, lower), e => Matches(e, newer, lower));
    FilterMonotone(events, e => Matches(e, newer, lower), e => Matches(e, older, lower));
  }

  const UrgentLabel := "Срочно"
  const ConfirmedLabel := "Подтвержден"
  const PotentialLabel := "Потенциал"

  /** `getStatusLabel`: 'urgent' and 'confirmed' have their own labels; every other status string reads as potential. */
  function GetStatusLabel(status: Status): (text: string)
    ensures text == UrgentLabel <==> StatusText(status) == "urgent"
    ensures text == ConfirmedLabel <==> StatusText(status) == "confirmed"
    ensures text == PotentialLabel <==> StatusText(status) != "urgent" && StatusText(status) != "confirmed"
  {
    var t := StatusText(status);
    if t == "urgent" then UrgentLabel
    else if t == "confirmed" then ConfirmedLabel
    else PotentialLabel
  }
}
