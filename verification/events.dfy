/** The event model: calendar events with integer instants and an opaque identity. */
module Events {
  import opened Wrappers

  /** An instant: nanoseconds of local wall-clock time since an epoch that falls on a local midnight. */
  type Time = int

  /** A span of time in nanoseconds, as Go's time.Duration. */
  type Duration = int

  const Second: Duration := 1_000_000_000
  const Minute: Duration := 60 * Second
  const Hour: Duration := 60 * Minute

  newtype byte = x: int | 0 <= x < 256

  /** Free text as Go holds it: a sequence of bytes. */
  type Text = seq<byte>

  /** A parsed calendar event; `uid` is used only for identity comparison. */
  datatype Event = Event(
    uid: string,
    start: Time,
    end: Time,
    summary: Text,
    location: Text,
    description: Text)

  /** The order the loader establishes: ascending by start. */
  ghost predicate SortedByStart(events: seq<Event>) {
    forall i, j :: 0 <= i < j < |events| ==> events[i].start <= events[j].start
  }

  /** Identity of two possibly-absent events: both absent, or both present with the same Uid. */
  function EventsEqual(a: Option<Event>, b: Option<Event>): (r: bool)
    ensures a.None? && b.None? ==> r
    ensures a.None? != b.None? ==> !r
    ensures a.Some? && b.Some? ==> (r <==> a.value.uid == b.value.uid)
  {
    match (a, b)
    case (None, None) => true
    case (Some(x), Some(y)) => x.uid == y.uid
    case _ => false
  }

  /** EventsEqual is an equivalence relation. */
  lemma EventsEqualIsEquivalence(a: Option<Event>, b: Option<Event>, c: Option<Event>)
    ensures EventsEqual(a, a)
    ensures EventsEqual(a, b) ==> EventsEqual(b, a)
    ensures EventsEqual(a, b) && EventsEqual(b, c) ==> EventsEqual(a, c)
  {
  }
}
