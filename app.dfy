/**
 * The root component of the dashboard (App.tsx): it owns the list of events
 * and the KPI metrics, re-randomises confidence and status whenever events
 * enter the list, merges newly collected events in front of the old ones,
 * and recounts the KPIs. `Math.random` is replaced by supplied draws.
 */
module App {
  import opened Common
  import opened Types

  // ---------------------------------------------------------------------
  // Confidence and status
  // ---------------------------------------------------------------------

  const PossibleConfidence: seq<int> := [80, 85, 90, 95, 100]
  const UrgentThreshold := 90

  /**
   * `getRandomConfidence`, with `Math.floor(Math.random() * 5)` supplied as
   * `index` (it is always in [0, 4] because `Math.random()` is in [0, 1)).
   */
  function RandomConfidence(index: nat): (c: int)
    requires index < |PossibleConfidence|
    ensures c in {80, 85, 90, 95, 100}
  {
    PossibleConfidence[index]
  }

  /** Every value of the confidence set is drawn by some index. */
  lemma EveryConfidenceDrawable(c: int)
    requires c in {80, 85, 90, 95, 100}
    ensures exists index: nat :: index < |PossibleConfidence| && RandomConfidence(index) == c
  {
    var index: nat := (c - 80) / 5;
    assert RandomConfidence(index) == c;
  }

  /** An event as it looks right after `setRandomConfidenceAndStatus`. */
  predicate IsAssigned(e: Event)
  {
    && e.confidence.Some?
    && e.confidence.value in PossibleConfidence
    && (e.status == Urgent || e.status == Potential)
    && (e.status == Urgent <==> e.confidence.value >= UrgentThreshold)
  }

  /**
   * `setRandomConfidenceAndStatus`: overwrites confidence with a fresh draw and
   * status with 'urgent' (confidence at least 90) or 'potential'; never
   * 'confirmed'; every other field is copied.
   */
  function SetRandomConfidenceAndStatus(e: Event, index: nat): (r: Event)
    requires index < |PossibleConfidence|
    ensures IsAssigned(r) && r.status != Confirmed
    ensures r.confidence == Some(RandomConfidence(index))
    ensures r.(confidence := e.confidence, status := e.status) == e
  {
    var c := RandomConfidence(index);
    e.(confidence := Some(c), status := if c >= UrgentThreshold then Urgent else Potential)
  }

  /** One random draw per event, each an index into `PossibleConfidence`. */
  predicate ValidDraws(draws: seq<nat>, n: nat)
  {
    |draws| == n && forall i :: 0 <= i < n ==> draws[i] < |PossibleConfidence|
  }

  /** Identities present in a list of events. */
  function Ids(s: seq<Event>): set<int>
  {
    set e | e in s :: e.id
  }

  /** `events.map(setRandomConfidenceAndStatus)`, the i-th event drawing `draws[i]`. */
  function AssignAll(batch: seq<Event>, draws: seq<nat>): (r: seq<Event>)
    requires ValidDraws(draws, |batch|)
    ensures |r| == |batch| && Ids(r) == Ids(batch)
    ensures forall i :: 0 <= i < |r| ==>
      && IsAssigned(r[i])
      && r[i].confidence == Some(RandomConfidence(draws[i]))
      && r[i].(confidence := batch[i].confidence, status := batch[i].status) == batch[i]
  {
    var r := seq(|batch|, i requires 0 <= i < |batch| => SetRandomConfidenceAndStatus(batch[i], draws[i]));
    assert forall i :: 0 <= i < |r| ==> r[i].id == batch[i].id;
    assert Ids(r) == Ids(batch) by {
      forall x | x in Ids(batch) ensures x in Ids(r) {
        var i :| 0 <= i < |batch| && batch[i].id == x;
        assert r[i] in r;
      }
    }
    r
  }

  // ---------------------------------------------------------------------
  // Merge of a newly collected batch (handleNewEventsCollected)
  // ---------------------------------------------------------------------

  /**
   * The event list after `handleNewEventsCollected(batch)`: the assigned batch,
   * in its order, followed by the previous events whose id is not in the
   * batch, in their previous order. Duplicates inside the batch are kept.
   */
  function Merged(prev: seq<Event>, batch: seq<Event>, draws: seq<nat>): (r: seq<Event>)
    requires ValidDraws(draws, |batch|)
    ensures |batch| <= |r| <= |batch| + |prev|
    ensures r[..|batch|] == AssignAll(batch, draws)
    ensures forall e :: e in r[|batch|..] <==> e in prev && e.id !in Ids(batch)
    ensures IsSubsequence(r[|batch|..], prev)
    ensures forall x :: multiset(r[|batch|..])[x] == if x.id !in Ids(batch) then multiset(prev)[x] else 0
  {
    var processed := AssignAll(batch, draws);
    var newIds := Ids(processed);
    var kept := Filter(prev, (e: Event) => e.id !in newIds);
    FilterMultiplicity(prev, (e: Event) => e.id !in newIds);
    assert (processed + kept)[|batch|..] == kept;
    processed + kept
  }

  /** No two events of the list share an id. */
  predicate DistinctIds(s: seq<Event>)
  {
    forall i, j :: 0 <= i < j < |s| ==> s[i].id != s[j].id
  }

  lemma {:induction false} SubsequenceKeepsDistinctIds(a: seq<Event>, b: seq<Event>)
    requires IsSubsequence(a, b) && DistinctIds(b)
    ensures DistinctIds(a)
  {
    if a != [] {
      if a[0] == b[0] && IsSubsequence(a[1..], b[1..]) {
        SubsequenceKeepsDistinctIds(a[1..], b[1..]);
        forall j | 0 < j < |a| ensures a[0].id != a[j].id {
          assert a[j] in b[1..] by { SubsequenceMembers(a[1..], b[1..]); assert a[1..][j - 1] == a[j]; }
        }
      } else {
        SubsequenceKeepsDistinctIds(a, b[1..]);
      }
    }
  }

  lemma {:induction false} SubsequenceMembers<T>(a: seq<T>, b: seq<T>)
    requires IsSubsequence(a, b)
    ensures forall x :: x in a ==> x in b
  {
    if a != [] {
      if a[0] == b[0] && IsSubsequence(a[1..], b[1..]) {
        SubsequenceMembers(a[1..], b[1..]);
        assert a == [a[0]] + a[1..] && b == [b[0]] + b[1..];
      } else {
        SubsequenceMembers(a, b[1..]);
      }
    }
  }

  /** If the old list and the batch each have distinct ids, so does the merged list. */
  lemma MergeKeepsDistinctIds(prev: seq<Event>, batch: seq<Event>, draws: seq<nat>)
    requires ValidDraws(draws, |batch|)
    requires DistinctIds(prev) && DistinctIds(batch)
    ensures DistinctIds(Merged(prev, batch, draws))
  {
    var r := Merged(prev, batch, draws);
    var n := |batch|;
    var processed := AssignAll(batch, draws);
    SubsequenceKeepsDistinctIds(r[n..], prev);
    forall i, j | 0 <= i < j < |r| ensures r[i].id != r[j].id {
      if j < n {
        assert r[i] == processed[i] && r[j] == processed[j];
      } else if i < n {
        assert r[i] == processed[i] && r[i].id == batch[i].id && batch[i].id in Ids(batch);
        assert r[j] == r[n..][j - n];
      } else {
        assert r[i] == r[n..][i - n] && r[j] == r[n..][j - n];
      }
    }
  }

  /** Two batch events with one id both survive the merge, so the merged list is not id-unique. */
  lemma MergeKeepsBatchDuplicates(prev: seq<Event>, batch: seq<Event>, draws: seq<nat>, i: nat, j: nat)
    requires ValidDraws(draws, |batch|)
    requires i < j < |batch| && batch[i].id == batch[j].id
    ensures var r := Merged(prev, batch, draws); r[i].id == r[j].id && !DistinctIds(r)
  {
    var r := Merged(prev, batch, draws);
    assert r[i] == r[..|batch|][i] && r[j] == r[..|batch|][j];
  }

  /** Every id of the old list is still present after the merge: superseded or kept. */
  lemma MergeKeepsEveryId(prev: seq<Event>, batch: seq<Event>, draws: seq<nat>)
    requires ValidDraws(draws, |batch|)
    ensures Ids(Merged(prev, batch, draws)) == Ids(batch) + Ids(prev)
  {
    var r := Merged(prev, batch, draws);
    var n := |batch|;
    assert r == r[..n] + r[n..];
    forall x | x in Ids(batch) + Ids(prev) ensures x in Ids(r) {
      if x in Ids(batch) {
        assert x in Ids(r[..n]);
        var e :| e in r[..n] && e.id == x;
      } else {
        var e :| e in prev && e.id == x;
        assert e in r[n..];
      }
    }
    forall x | x in Ids(r) ensures x in Ids(batch) + Ids(prev) {
      var e :| e in r && e.id == x;
      if e in r[..n] {
        assert x in Ids(r[..n]);
      } else {
        assert e in r[n..];
      }
    }
  }

  /** Every event in the list has been assigned when it entered, so merging keeps that true. */
  lemma MergeKeepsAssigned(prev: seq<Event>, batch: seq<Event>, draws: seq<nat>)
    requires ValidDraws(draws, |batch|)
    requires forall e :: e in prev ==> IsAssigned(e)
    ensures forall e :: e in Merged(prev, batch, draws) ==> IsAssigned(e)
  {
    var r := Merged(prev, batch, draws);
    var n := |batch|;
    assert r == r[..n] + r[n..];
    forall e | e in r ensures IsAssigned(e) {
      if e in r[..n] {
        var i :| 0 <= i < n && r[..n][i] == e;
      }
    }
  }

  function ExampleEvent(id: int, volume: string): Event
  {
    Event(id, "Арматура", "ООО Сталь", "Москва", volume, None, None, None, Potential, None, None)
  }

  /** Supersession: the new version of id 5 comes first, id 6 follows unchanged. */
  lemma SupersessionExample(draw: nat)
    requires draw < |PossibleConfidence|
    ensures Merged([ExampleEvent(5, "a"), ExampleEvent(6, "b")], [ExampleEvent(5, "new")], [draw])
         == [SetRandomConfidenceAndStatus(ExampleEvent(5, "new"), draw), ExampleEvent(6, "b")]
  {
    var prev := [ExampleEvent(5, "a"), ExampleEvent(6, "b")];
    var r := Merged(prev, [ExampleEvent(5, "new")], [draw]);
    assert Ids([ExampleEvent(5, "new")]) == {5};
    assert ExampleEvent(6, "b") in r[1..];
    assert ExampleEvent(5, "a") !in r[1..];
    var x := r[1..];
    assert IsSubsequence(x, prev);
    assert x[0] != prev[0];
    assert prev[1..] == [ExampleEvent(6, "b")] && prev[1..][1..] == [];
    assert IsSubsequence(x, prev[1..]);
    assert x[1..] == [];
  }

  // ---------------------------------------------------------------------
  // Metrics (recalculateMetrics, handleDashboardUpdate)
  // ---------------------------------------------------------------------

  const OrdersInWorkKey := "orders_in_work"
  const UrgentSignalsKey := "urgent_signals"
  const TotalBaseKey := "total_base"

  const InitialMetrics: seq<Metric> := [
    Metric(OrdersInWorkKey, "Всего заявок в работе", 0, 0, Neutral, "Package"),
    Metric(UrgentSignalsKey, "Срочных сделок", 0, 0, Neutral, "AlertCircle"),
    Metric(TotalBaseKey, "Общая база данных (ед.)", 0, 0, Neutral, "Users")
  ]

  /** The status string is 'urgent', 'confirmed' or 'potential'; exactly the statuses the JSON reading recognises. */
  predicate InWork(e: Event)
    ensures InWork(e) <==> !StatusOf(StatusText(e.status)).Unrecognised?
  {
    var t := StatusText(e.status);
    t == "urgent" || t == "confirmed" || t == "potential"
  }

  /**
   * `e.confidence && e.confidence >= 90`: a missing or zero confidence is
   * falsy, so only a present confidence of at least 90 is an urgent signal.
   */
  predicate IsUrgentSignal(e: Event)
    ensures IsUrgentSignal(e) <==> e.confidence.Some? && e.confidence.value >= UrgentThreshold
  {
    e.confidence.Some? && e.confidence.value != 0 && e.confidence.value >= UrgentThreshold
  }

  function OrdersInWork(es: seq<Event>): nat { |Filter(es, InWork)| }

  function UrgentSignals(es: seq<Event>): nat { |Filter(es, IsUrgentSignal)| }

  /** The value `recalculateMetrics` gives the metric named `key`, if it recounts that one. */
  function Kpi(key: string, es: seq<Event>): (r: Option<int>)
    ensures r.Some? <==> key == OrdersInWorkKey || key == UrgentSignalsKey || key == TotalBaseKey
    ensures r.Some? ==> 0 <= r.value <= |es|
  {
    if key == OrdersInWorkKey then Some(OrdersInWork(es))
    else if key == TotalBaseKey then Some(|es|)
    else if key == UrgentSignalsKey then Some(UrgentSignals(es))
    else None
  }

  function MetricKeys(ms: seq<Metric>): seq<string>
  {
    seq(|ms|, i requires 0 <= i < |ms| => ms[i].key)
  }

  /**
   * The metric list after `recalculateMetrics(es)`: each of the three known
   * keys gets its recount as its value, everything else is left as it was.
   */
  function Recalculated(ms: seq<Metric>, es: seq<Event>): (r: seq<Metric>)
    ensures |r| == |ms| && MetricKeys(r) == MetricKeys(ms)
    ensures forall i :: 0 <= i < |r| ==>
      && r[i].(value := ms[i].value) == ms[i]
      && (Kpi(ms[i].key, es).Some? ==> r[i].value == Kpi(ms[i].key, es).value)
      && (Kpi(ms[i].key, es).None? ==> r[i] == ms[i])
  {
    seq(|ms|, i requires 0 <= i < |ms| =>
      match Kpi(ms[i].key, es)
      case Some(v) => ms[i].(value := v)
      case None => ms[i])
  }

  /** A recount depends only on the events it is given: the last recount wins, so recounting is idempotent. */
  lemma RecalculatedLastWins(ms: seq<Metric>, es1: seq<Event>, es2: seq<Event>)
    ensures Recalculated(Recalculated(ms, es1), es2) == Recalculated(ms, es2)
  {
    var a := Recalculated(Recalculated(ms, es1), es2);
    var b := Recalculated(ms, es2);
    forall i | 0 <= i < |a| ensures a[i] == b[i] {
      assert Recalculated(ms, es1)[i].key == ms[i].key by {
        assert MetricKeys(Recalculated(ms, es1))[i] == MetricKeys(ms)[i];
      }
    }
  }

  /** orders_in_work never exceeds total_base, and equals it exactly when every status is one of the three known ones. */
  lemma OrdersInWorkVersusTotal(es: seq<Event>)
    ensures OrdersInWork(es) <= |es|
    ensures OrdersInWork(es) == |es| <==> forall e :: e in es ==> InWork(e)
  {
    FilterFullLength(es, InWork);
  }

  /** On a list where every event was assigned on entry, urgent_signals counts exactly the 'urgent' events. */
  lemma UrgentSignalsCountUrgent(es: seq<Event>)
    requires forall e :: e in es ==> IsAssigned(e)
    ensures UrgentSignals(es) == |Filter(es, (e: Event) => e.status == Urgent)|
  {
    FilterCongruent(es, IsUrgentSignal, (e: Event) => e.status == Urgent);
  }

  /** From the initial metrics, a recount sets the three values and keeps every label, icon and trend. */
  lemma RecalculatedInitial(es: seq<Event>)
    ensures Recalculated(InitialMetrics, es) == [
      InitialMetrics[0].(value := OrdersInWork(es)),
      InitialMetrics[1].(value := UrgentSignals(es)),
      InitialMetrics[2].(value := |es|)]
  {
    assert OrdersInWorkKey[0] != UrgentSignalsKey[0] && |TotalBaseKey| != |UrgentSignalsKey|;
    assert Kpi(InitialMetrics[0].key, es) == Some(OrdersInWork(es));
    assert Kpi(InitialMetrics[1].key, es) == Some(UrgentSignals(es));
    assert Kpi(InitialMetrics[2].key, es) == Some(|es|);
  }

  /** On the initial keys, a recount puts the three counts over `es` at their places. */
  lemma RecalculatedTracks(ms: seq<Metric>, es: seq<Event>)
    requires MetricKeys(ms) == MetricKeys(InitialMetrics)
    ensures MetricKeys(Recalculated(ms, es)) == MetricKeys(InitialMetrics)
    ensures Recalculated(ms, es)[0].value == OrdersInWork(es)
    ensures Recalculated(ms, es)[1].value == UrgentSignals(es)
    ensures Recalculated(ms, es)[2].value == |es|
  {
    assert OrdersInWorkKey[0] != UrgentSignalsKey[0] && |TotalBaseKey| != |UrgentSignalsKey|;
    assert MetricKeys(ms)[0] == OrdersInWorkKey && MetricKeys(ms)[1] == UrgentSignalsKey && MetricKeys(ms)[2] == TotalBaseKey;
  }

  /** The recount example: urgent/92, potential/75, confirmed/99 give 3, 3 and 2. */
  lemma RecountExample()
    ensures var es := [
      ExampleEvent(1, "").(status := Urgent, confidence := Some(92)),
      ExampleEvent(2, "").(status := Potential, confidence := Some(75)),
      ExampleEvent(3, "").(status := Confirmed, confidence := Some(99))];
      Recalculated(InitialMetrics, es) ==
        [InitialMetrics[0].(value := 3), InitialMetrics[1].(value := 2), InitialMetrics[2].(value := 3)]
  {
    var es := [
      ExampleEvent(1, "").(status := Urgent, confidence := Some(92)),
      ExampleEvent(2, "").(status := Potential, confidence := Some(75)),
      ExampleEvent(3, "").(status := Confirmed, confidence := Some(99))];
    assert es[2..][1..] == [] && es[1..][1..] == es[2..];
    assert Filter(es[2..], IsUrgentSignal) == [es[2]];
    assert Filter(es[1..], IsUrgentSignal) == [es[2]];
    assert UrgentSignals(es) == 2;
    FilterKeepsAll(es, InWork);
    RecalculatedInitial(es);
  }

  /**
   * `handleDashboardUpdate`: with `totalParsed` present, only the value of the
   * total_base entries becomes `totalParsed`; absent, nothing changes.
   */
  function WithTotalBase(ms: seq<Metric>, totalParsed: Option<int>): (r: seq<Metric>)
    ensures |r| == |ms| && MetricKeys(r) == MetricKeys(ms)
    ensures totalParsed.None? ==> r == ms
    ensures totalParsed.Some? ==> forall i :: 0 <= i < |r| ==>
      r[i] == if ms[i].key == TotalBaseKey then ms[i].(value := totalParsed.value) else ms[i]
  {
    match totalParsed
    case None => ms
    case Some(v) =>
      seq(|ms|, i requires 0 <= i < |ms| => if ms[i].key == TotalBaseKey then ms[i].(value := v) else ms[i])
  }

  /**
   * total_base has two writers. Whichever runs last decides its value: after a
   * recount followed by an override it is the override, whatever the number of
   * events; after an override followed by a recount it is the number of events.
   */
  lemma TotalBaseLastWriterWins(ms: seq<Metric>, es: seq<Event>, v: int, i: nat)
    requires i < |ms| && ms[i].key == TotalBaseKey
    ensures WithTotalBase(Recalculated(ms, es), Some(v))[i].value == v
    ensures Recalculated(WithTotalBase(ms, Some(v)), es)[i].value == |es|
  {
    assert MetricKeys(Recalculated(ms, es))[i] == MetricKeys(ms)[i];
    assert MetricKeys(WithTotalBase(ms, Some(v)))[i] == MetricKeys(ms)[i];
  }

  // ---------------------------------------------------------------------
  // The component's state
  // ---------------------------------------------------------------------

  /** The outcome of fetching the cache at start-up. */
  datatype CacheResponse =
    | NotOk(httpStatus: int)      // `!response.ok`: start without the cache
    | Unreadable                  // `response.json()` threw
    | Body(records: seq<Event>)

  /** Cache-load normalisation: `date` takes the value of `event_date`, which is then cleared. */
  function Normalized(raw: Event): (r: Event)
    ensures r.date == raw.eventDate && r.eventDate.None?
    ensures r.(date := raw.date, eventDate := raw.eventDate) == raw
  {
    raw.(date := raw.eventDate, eventDate := None)
  }

  function NormalizedAll(raws: seq<Event>): (r: seq<Event>)
    ensures |r| == |raws| && forall i :: 0 <= i < |r| ==> r[i] == Normalized(raws[i])
  {
    seq(|raws|, i requires 0 <= i < |raws| => Normalized(raws[i]))
  }

  /** The number of events the dashboard page receives (`events.slice(0, 50)`). */
  const DashboardEventLimit := 50

  class AppState {
    var events: seq<Event>
    var metrics: seq<Metric>
    var isLoading: bool

    /** The metric list has the three initial keys in order, and every listed event was assigned on entry. */
    ghost predicate WellShaped()
      reads this
    {
      && MetricKeys(metrics) == MetricKeys(InitialMetrics)
      && forall e :: e in events ==> IsAssigned(e)
    }

    /**
     * In every reachable state, orders_in_work and urgent_signals are the
     * counts over the current list (total_base alone has a second writer).
     */
    ghost predicate Valid()
      reads this
    {
      && WellShaped()
      && metrics[0].value == OrdersInWork(events)
      && metrics[1].value == UrgentSignals(events)
    }

    constructor ()
      ensures Valid()
      ensures events == [] && metrics == InitialMetrics && isLoading
    {
      events := [];
      metrics := InitialMetrics;
      isLoading := true;
    }

    /** `recalculateMetrics(current)`. */
    method RecalculateMetrics(current: seq<Event>)
      requires WellShaped()
      modifies this
      ensures metrics == Recalculated(old(metrics), current)
      ensures events == old(events) && isLoading == old(isLoading)
      ensures WellShaped() && (current == events ==> Valid())
    {
      RecalculatedTracks(metrics, current);
      metrics := Recalculated(metrics, current);
    }

    /** The urgent-signal KPI on display: the number of 'urgent' events in the list. */
    function UrgentSignalCount(): (n: int)
      reads this
      requires Valid()
      ensures n == |Filter(events, (e: Event) => e.status == Urgent)|
    {
      UrgentSignalsCountUrgent(events);
      metrics[1].value
    }

    /**
     * The start-up effect: a non-empty cache body is normalised, assigned and
     * replaces the list outright, then the metrics are recounted; in every
     * case loading ends.
     */
    method LoadCachedEvents(response: CacheResponse, draws: seq<nat>)
      requires Valid()
      requires response.Body? ==> ValidDraws(draws, |response.records|)
      modifies this
      ensures Valid() && !isLoading
      ensures response.Body? && |response.records| > 0 ==>
        && events == AssignAll(NormalizedAll(response.records), draws)
        && metrics == Recalculated(old(metrics), events)
      ensures !(response.Body? && |response.records| > 0) ==>
        events == old(events) && metrics == old(metrics)
    {
      if response.Body? && |response.records| > 0 {
        var processed := AssignAll(NormalizedAll(response.records), draws);
        forall e | e in processed ensures IsAssigned(e) {
          var i :| 0 <= i < |processed| && processed[i] == e;
        }
        events := processed;
        RecalculateMetrics(processed);
      }
      isLoading := false;
    }

    /** `handleNewEventsCollected(batch)`: merge, then recount from the merged list. */
    method HandleNewEventsCollected(batch: seq<Event>, draws: seq<nat>)
      requires Valid() && ValidDraws(draws, |batch|)
      modifies this
      ensures Valid()
      ensures events == Merged(old(events), batch, draws)
      ensures metrics == Recalculated(old(metrics), events)
      ensures isLoading == old(isLoading)
    {
      var updated := Merged(events, batch, draws);
      MergeKeepsAssigned(events, batch, draws);
      events := updated;
      RecalculateMetrics(updated);
    }

    /** `handleDashboardUpdate({totalParsed})`. */
    method HandleDashboardUpdate(totalParsed: Option<int>)
      requires Valid()
      modifies this
      ensures Valid()
      ensures metrics == WithTotalBase(old(metrics), totalParsed)
      ensures events == old(events) && isLoading == old(isLoading)
    {
      assert MetricKeys(metrics)[0] == OrdersInWorkKey && MetricKeys(metrics)[1] == UrgentSignalsKey;
      metrics := WithTotalBase(metrics, totalParsed);
    }

    /** The events the dashboard page is given: at most the first 50. */
    function DashboardEvents(): (r: seq<Event>)
      reads this
      ensures r <= events
      ensures |r| == if |events| < DashboardEventLimit then |events| else DashboardEventLimit
    {
      Slice(events, DashboardEventLimit)
    }
  }
}
