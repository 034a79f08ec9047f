/** The window resolver: which event is running now, and which one starts next. */
module Resolver {
  import opened Wrappers
  import opened Events

  /** getCurrentEvent's test: started strictly before `now` and ends strictly after it. */
  predicate IsCurrent(e: Event, now: Time) {
    e.start < now && e.end > now
  }

  /** getNextEvent's test: starts strictly after `now`. */
  predicate IsUpcoming(e: Event, now: Time) {
    e.start > now
  }

  /** The position where a forward scan for `p` stops: the first match, or |events| when none matches. */
  function FirstIndex(events: seq<Event>, p: Event -> bool): (k: nat)
    ensures k <= |events|
    ensures forall j :: 0 <= j < k ==> !p(events[j])
    ensures k < |events| ==> p(events[k])
    decreases |events|
  {
    if |events| == 0 then 0
    else if p(events[0]) then 0
    else 1 + FirstIndex(events[1..], p)
  }

  /** getCurrentEvent: the first event in list order that is running at `now`. */
  function CurrentEvent(events: seq<Event>, now: Time): (r: Option<Event>)
    ensures r.None? <==> forall i :: 0 <= i < |events| ==> !IsCurrent(events[i], now)
    ensures r.Some? ==> IsCurrent(r.value, now)
    ensures r.Some? ==> exists k :: 0 <= k < |events| && events[k] == r.value
                                    && forall j :: 0 <= j < k ==> !IsCurrent(events[j], now)
  {
    var k := FirstIndex(events, e => IsCurrent(e, now));
    if k < |events| then Some(events[k]) else None
  }

  /** Position `k` holds the first event in list order that is running at `now`. */
  ghost predicate FirstRunningAt(events: seq<Event>, now: Time, k: int) {
    && 0 <= k < |events| && IsCurrent(events[k], now)
    && forall j :: 0 <= j < k ==> !IsCurrent(events[j], now)
  }

  /** The current event is the one at the first running position. */
  lemma CurrentEventAt(events: seq<Event>, now: Time, k: int)
    requires FirstRunningAt(events, now, k)
    ensures CurrentEvent(events, now) == Some(events[k])
  {
  }

  /** getNextEvent: the first event in list order that starts after `now`. */
  function NextEvent(events: seq<Event>, now: Time): (r: Option<Event>)
    ensures r.None? <==> forall i :: 0 <= i < |events| ==> !IsUpcoming(events[i], now)
    ensures r.Some? ==> IsUpcoming(r.value, now)
    ensures r.Some? ==> exists k :: 0 <= k < |events| && events[k] == r.value
                                    && forall j :: 0 <= j < k ==> !IsUpcoming(events[j], now)
  {
    var k := FirstIndex(events, e => IsUpcoming(e, now));
    if k < |events| then Some(events[k]) else None
  }

  /** On a start-sorted list the next event is the earliest of those starting after `now`. */
  lemma NextEventIsEarliest(events: seq<Event>, now: Time)
    requires SortedByStart(events)
    ensures NextEvent(events, now).Some? ==>
              forall i :: 0 <= i < |events| && IsUpcoming(events[i], now) ==>
                NextEvent(events, now).value.start <= events[i].start
  {
  }

  /** The next event stays the next one until the instant it starts. */
  lemma NextEventStableUntilStart(events: seq<Event>, now: Time, later: Time)
    requires NextEvent(events, now).Some?
    requires now <= later < NextEvent(events, now).value.start
    ensures NextEvent(events, later) == NextEvent(events, now)
  {
  }

  /** Once the next event's start has passed and it is still running, some event is current and it is no longer next. */
  lemma NextEventBecomesCurrent(events: seq<Event>, now: Time, later: Time)
    requires NextEvent(events, now).Some?
    requires NextEvent(events, now).value.start < later < NextEvent(events, now).value.end
    ensures CurrentEvent(events, later).Some?
    ensures NextEvent(events, later) != NextEvent(events, now)
  {
  }

  /** At the very instant an event starts it is neither current nor next. */
  lemma StartInstantIsInBetween(events: seq<Event>, e: Event)
    ensures CurrentEvent(events, e.start) != Some(e)
    ensures NextEvent(events, e.start) != Some(e)
  {
  }

  /** An empty day has neither a current nor a next event. */
  lemma EmptyDay(now: Time)
    ensures CurrentEvent([], now) == None && NextEvent([], now) == None
  {
  }

  /** One event 09:00-10:00, asked at 09:30: it is current and nothing is next. */
  lemma SingleEventScenario(a: Event)
    requires a.start == 9 * Hour && a.end == 10 * Hour
    ensures CurrentEvent([a], 9 * Hour + 30 * Minute) == Some(a)
    ensures NextEvent([a], 9 * Hour + 30 * Minute) == None
  {
  }

  /** Events 09:00-10:00 and 11:00-12:00, asked at 10:30: none is current and the second is next. */
  lemma GapScenario(a: Event, b: Event)
    requires a.start == 9 * Hour && a.end == 10 * Hour
    requires b.start == 11 * Hour && b.end == 12 * Hour
    ensures CurrentEvent([a, b], 10 * Hour + 30 * Minute) == None
    ensures NextEvent([a, b], 10 * Hour + 30 * Minute) == Some(b)
  {
    var events, now := [a, b], 10 * Hour + 30 * Minute;
    assert !IsUpcoming(events[0], now) && IsUpcoming(events[1], now);
  }
}
