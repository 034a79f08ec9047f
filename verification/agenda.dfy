/** The `agenda` output: every event of the day, the running one flagged. */
module Agenda {
  import opened Wrappers
  import opened Events
  import opened Resolver

  /** One list entry: the event and whether it is printed as TRUE (the current event). */
  datatype Entry = Entry(event: Event, current: bool)

  /** The entries the agenda loop prints, in list order; only the first running event is flagged. */
  method AgendaEntries(events: seq<Event>, now: Time) returns (entries: seq<Entry>)
    ensures |entries| == |events|
    ensures forall k :: 0 <= k < |events| ==> entries[k].event == events[k]
    ensures forall k :: 0 <= k < |events| ==> (entries[k].current <==> FirstRunningAt(events, now, k))
    ensures forall k1, k2 ::
              (0 <= k1 < |entries| && 0 <= k2 < |entries| && entries[k1].current && entries[k2].current)
              ==> k1 == k2
    ensures forall k :: 0 <= k < |entries| && entries[k].current ==>
              CurrentEvent(events, now) == Some(events[k])
    ensures CurrentEvent(events, now).Some? <==> exists k :: 0 <= k < |entries| && entries[k].current
  {
    entries := [];
    var found := false;
    var i := 0;
    while i < |events|
      invariant 0 <= i <= |events|
      invariant |entries| == i
      invariant forall k :: 0 <= k < i ==> entries[k].event == events[k]
      invariant found <==> exists k :: 0 <= k < i && IsCurrent(events[k], now)
      invariant forall k :: 0 <= k < i ==> (entries[k].current <==> FirstRunningAt(events, now, k))
    {
      if !found && IsCurrent(events[i], now) {
        found := true;
        entries := entries + [Entry(events[i], true)];
      } else {
        entries := entries + [Entry(events[i], false)];
      }
      i := i + 1;
    }
    forall k | 0 <= k < |entries| && entries[k].current
      ensures CurrentEvent(events, now) == Some(events[k])
    {
      CurrentEventAt(events, now, k);
    }
  }
}
