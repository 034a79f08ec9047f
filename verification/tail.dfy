/** The `tail` poll loop, one tick at a time: diff the resolved window, alert before the next event. */
module Tail {
  import opened Wrappers
  import opened Events
  import opened Format

  /** What the loop remembers between ticks. */
  datatype PollState = PollState(
    current: Option<Event>,
    next: Option<Event>,
    announced1: bool,   // the 15-minute alert has fired for `next`
    announced2: bool)   // the 5-minute alert has fired for `next`

  /** The state the loop starts from. */
  const Initial: PollState := PollState(None, None, false, false)

  /** Side effects a tick asks for: the embedded chime, or a desktop notification. */
  datatype Effect = PlaySound | Notify(title: string, body: string)

  const FiveMinuteNotice: Effect := Notify("Agenda", "Upcoming event in 5 Minutes")
  const FifteenMinuteNotice: Effect := Notify("Agenda", "Upcoming event in 15 Minutes")
  const FiveMinuteAlert: seq<Effect> := [PlaySound, FiveMinuteNotice]
  const FifteenMinuteAlert: seq<Effect> := [PlaySound, FifteenMinuteNotice]

  /** The line printed on a transition, with its rendered times and cut summaries. */
  datatype TailLine =
    | NoUpcoming
    | CurrentOnly(start: string, end: string, summary: Text)
    | UpcomingOnly(start: string, end: string, summary: Text)
    | Both(currentStart: string, currentEnd: string, currentSummary: Text,
           nextStart: string, nextEnd: string, nextSummary: Text)

  /** One tick's outcome: the new state, the effects in order, and the line printed if any. */
  datatype TickResult = TickResult(state: PollState, effects: seq<Effect>, line: Option<TailLine>)

  /** Both resolved events have the identities the state remembers. */
  predicate SameWindow(s: PollState, ce: Option<Event>, ne: Option<Event>)
    ensures SameWindow(s, ce, ne) ==> (ce.Some? <==> s.current.Some?) && (ne.Some? <==> s.next.Some?)
  {
    EventsEqual(ce, s.current) && EventsEqual(ne, s.next)
  }

  /** Reachable states never have the 5-minute flag without the 15-minute one. */
  predicate FlagsOrdered(s: PollState) {
    s.announced2 ==> s.announced1
  }

  /** The summary shown on the `Upcoming:` line as the source writes it: cut with "..." and then by `%.40s`. */
  function UpcomingSummaryAsWritten(summary: Text): (r: Text)
    ensures |summary| <= 40 ==> r == summary
    ensures |summary| > 40 ==> r == summary[..40]
  {
    Precision(FixedSizeString(summary, 40, Ellipsis), 40)
  }

  /** As written, a long summary on the `Upcoming:` line loses its ellipsis entirely. */
  lemma UpcomingLineDropsEllipsis()
    ensures var s: Text := seq(41, _ => 97 as byte);
            UpcomingSummaryAsWritten(s) == s[..40] && |UpcomingSummaryAsWritten(s)| == 40
            && UpcomingSummaryAsWritten(s)[37..] != Ellipsis
  {
    var s: Text := seq(41, _ => 97 as byte);
    assert UpcomingSummaryAsWritten(s)[37] == 97;
  }

  /** The summary on the `Upcoming:` line as intended: cut to 40 bytes and marked, like the `Current:` line. */
  function UpcomingSummary(summary: Text): (r: Text)
    ensures |summary| <= 40 ==> r == summary
    ensures |summary| > 40 ==> |r| == 43 && r[..40] == summary[..40] && r[40..] == Ellipsis
  {
    FixedSizeString(summary, 40, Ellipsis)
  }

  /** The intended `Upcoming:` summary only differs from the written one by the restored ellipsis. */
  lemma UpcomingSummaryRestoresEllipsis(summary: Text)
    ensures UpcomingSummary(summary) ==
            UpcomingSummaryAsWritten(summary) + (if |summary| > 40 then Ellipsis else [])
  {
  }

  /** The line a transition prints for the newly resolved window, as the source formats it. */
  function StatusLine(ce: Option<Event>, ne: Option<Event>): (line: TailLine)
    ensures line.NoUpcoming? <==> ce.None? && ne.None?
    ensures line.CurrentOnly? <==> ce.Some? && ne.None?
    ensures line.UpcomingOnly? <==> ce.None? && ne.Some?
    ensures line.Both? <==> ce.Some? && ne.Some?
    ensures line.CurrentOnly? ==>
              && line.start == TimeString(ce.value.start) && line.end == TimeString(ce.value.end)
              && line.summary == FixedSizeString(ce.value.summary, 40, Ellipsis)
    ensures line.UpcomingOnly? ==>
              && line.start == TimeString(ne.value.start) && line.end == TimeString(ne.value.end)
              && line.summary == UpcomingSummaryAsWritten(ne.value.summary)
    ensures line.Both? ==>
              && line.currentStart == TimeString(ce.value.start)
              && line.currentEnd == TimeString(ce.value.end)
              && line.currentSummary == FixedSizeString(ce.value.summary, 30, Ellipsis)
              && line.nextStart == TimeString(ne.value.start)
              && line.nextEnd == TimeString(ne.value.end)
              && line.nextSummary == FixedSizeString(ne.value.summary, 30, Ellipsis)
  {
    match (ce, ne)
    case (None, None) => NoUpcoming
    case (Some(c), None) =>
      CurrentOnly(TimeString(c.start), TimeString(c.end), FixedSizeString(c.summary, 40, Ellipsis))
    case (None, Some(n)) =>
      UpcomingOnly(TimeString(n.start), TimeString(n.end), UpcomingSummaryAsWritten(n.summary))
    case (Some(c), Some(n)) =>
      Both(TimeString(c.start), TimeString(c.end), FixedSizeString(c.summary, 30, Ellipsis),
           TimeString(n.start), TimeString(n.end), FixedSizeString(n.summary, 30, Ellipsis))
  }

  /** The transition line as intended: the `Upcoming:` summary keeps its ellipsis. */
  function StatusLineIntended(ce: Option<Event>, ne: Option<Event>): (line: TailLine)
    ensures line.UpcomingOnly? <==> ce.None? && ne.Some?
    ensures line.UpcomingOnly? ==>
              && line.start == TimeString(ne.value.start) && line.end == TimeString(ne.value.end)
              && line.summary == UpcomingSummary(ne.value.summary)
    ensures !line.UpcomingOnly? ==> line == StatusLine(ce, ne)
  {
    match (ce, ne)
    case (None, Some(n)) => UpcomingOnly(TimeString(n.start), TimeString(n.end), UpcomingSummary(n.summary))
    case _ => StatusLine(ce, ne)
  }

  /** The printed line departs from the intended one exactly for a lone next event with a summary over 40 bytes. */
  lemma StatusLineDeparts(ce: Option<Event>, ne: Option<Event>)
    ensures StatusLine(ce, ne) != StatusLineIntended(ce, ne)
        <==> ce.None? && ne.Some? && |ne.value.summary| > 40
  {
    if ce.None? && ne.Some? && |ne.value.summary| > 40 {
      assert |StatusLineIntended(ce, ne).summary| == 43;
    }
  }

  /** The lead-time alerts of an unchanged window: the 5-minute check first, then the 15-minute one. */
  function Announce(s: PollState, ne: Event, now: Time): (r: TickResult)
    ensures r.line.None? && r.state.current == s.current && r.state.next == s.next
    ensures (s.announced1 ==> r.state.announced1) && (s.announced2 ==> r.state.announced2)
    ensures r.effects == FiveMinuteAlert <==> !s.announced2 && ne.start < now + 5 * Minute
    ensures r.effects == FiveMinuteAlert ==> r.state.announced1 && r.state.announced2
    ensures r.effects == FifteenMinuteAlert <==>
              && !(!s.announced2 && ne.start < now + 5 * Minute)
              && !s.announced1 && ne.start < now + 15 * Minute
    ensures r.effects == FifteenMinuteAlert ==> r.state.announced1 && r.state.announced2 == s.announced2
    ensures r.effects == [] ==> r.state == s
    ensures r.effects == [] || r.effects == FiveMinuteAlert || r.effects == FifteenMinuteAlert
  {
    var (a1, a2, five) :=
      if !s.announced2 && ne.start < now + 5 * Minute then (true, true, FiveMinuteAlert)
      else (s.announced1, s.announced2, []);
    var (a1', fifteen) :=
      if !a1 && ne.start < now + 15 * Minute then (true, FifteenMinuteAlert)
      else (a1, []);
    assert FiveMinuteAlert[1] != FifteenMinuteAlert[1];
    assert five != [] ==> fifteen == [] && five + fifteen == five;
    TickResult(s.(announced1 := a1', announced2 := a2), five + fifteen, None)
  }

  /** One pass of the tail loop body, given the events resolved for `now`. */
  function Tick(s: PollState, ce: Option<Event>, ne: Option<Event>, now: Time): (r: TickResult)
    ensures !SameWindow(s, ce, ne) ==>
              && r.state == PollState(ce, ne, false, false)
              && r.effects == [PlaySound]
              && r.line == Some(StatusLine(ce, ne))
    ensures SameWindow(s, ce, ne) ==>
              && r.state.current == s.current && r.state.next == s.next
              && r.line.None?
              && (s.announced1 ==> r.state.announced1) && (s.announced2 ==> r.state.announced2)
              && (r.effects == [] || r.effects == FiveMinuteAlert || r.effects == FifteenMinuteAlert)
    ensures SameWindow(s, ce, ne) && r.effects != FiveMinuteAlert ==> r.state.announced2 == s.announced2
    ensures SameWindow(s, ce, ne) && ne.None? ==> r.effects == [] && r.state == s
    ensures SameWindow(s, ce, ne) && s.announced1 && s.announced2 ==> r.effects == [] && r.state == s
    ensures FlagsOrdered(s) ==> FlagsOrdered(r.state)
  {
    if SameWindow(s, ce, ne) then
      if ne.None? then TickResult(s, [], None) else Announce(s, ne.value, now)
    else
      TickResult(PollState(ce, ne, false, false), [PlaySound], Some(StatusLine(ce, ne)))
  }

  /** The first tick from the initial state chimes and prints exactly when some event is resolved. */
  lemma InitialTick(ce: Option<Event>, ne: Option<Event>, now: Time)
    ensures ce.None? && ne.None? ==> Tick(Initial, ce, ne, now) == TickResult(Initial, [], None)
    ensures ce.Some? || ne.Some? ==>
              Tick(Initial, ce, ne, now) == TickResult(PollState(ce, ne, false, false), [PlaySound], Some(StatusLine(ce, ne)))
  {
  }
}
