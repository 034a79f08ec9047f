/** The `tail` loop over many ticks: readings resolved from the day's events, fed to the tick in turn. */
module PollLoop {
  import opened Wrappers
  import opened Events
  import opened Resolver
  import opened Tail

  /** What the loop observes on one tick: the resolved current and next events, and the clock. */
  datatype Reading = Reading(ce: Option<Event>, ne: Option<Event>, now: Time)

  /** What the loop body resolves from the day's events at `now`. */
  function Observe(events: seq<Event>, now: Time): (r: Reading)
    ensures r.now == now
    ensures r.ce.Some? ==> r.ce.value in events && IsCurrent(r.ce.value, now)
    ensures r.ne.Some? ==> r.ne.value in events && IsUpcoming(r.ne.value, now)
    ensures r.ce.None? <==> forall i :: 0 <= i < |events| ==> !IsCurrent(events[i], now)
    ensures r.ne.None? <==> forall i :: 0 <= i < |events| ==> !IsUpcoming(events[i], now)
  {
    Reading(CurrentEvent(events, now), NextEvent(events, now), now)
  }

  /** A run of the loop: the final state, every effect, and every printed line, in order. */
  datatype RunResult = RunResult(state: PollState, effects: seq<Effect>, lines: seq<TailLine>)

  /** Feeds the readings to the loop one tick after another. */
  function Run(s: PollState, readings: seq<Reading>): (r: RunResult)
    ensures |r.lines| <= |readings|
    ensures |r.effects| <= 2 * |readings|
    decreases |readings|
  {
    if |readings| == 0 then RunResult(s, [], [])
    else
      var t := Tick(s, readings[0].ce, readings[0].ne, readings[0].now);
      var rest := Run(t.state, readings[1..]);
      var printed := if t.line.Some? then [t.line.value] else [];
      RunResult(rest.state, t.effects + rest.effects, printed + rest.lines)
  }

  /** After a run the loop remembers the last reading's window, and the flags stay ordered. */
  lemma {:induction false} RunEndsOnLastWindow(s: PollState, readings: seq<Reading>)
    ensures |readings| > 0 ==>
              SameWindow(Run(s, readings).state, readings[|readings| - 1].ce, readings[|readings| - 1].ne)
    ensures FlagsOrdered(s) ==> FlagsOrdered(Run(s, readings).state)
    decreases |readings|
  {
    if |readings| > 0 {
      var t := Tick(s, readings[0].ce, readings[0].ne, readings[0].now);
      RunEndsOnLastWindow(t.state, readings[1..]);
      if |readings| > 1 {
        assert readings[1..][|readings[1..]| - 1] == readings[|readings| - 1];
      }
    }
  }

  /** Every reading resolves to the window the state remembers. */
  ghost predicate Steady(s: PollState, readings: seq<Reading>) {
    forall i :: 0 <= i < |readings| ==> SameWindow(s, readings[i].ce, readings[i].ne)
  }

  lemma SteadyTail(s: PollState, s': PollState, readings: seq<Reading>)
    requires |readings| > 0 && Steady(s, readings)
    requires s'.current == s.current && s'.next == s.next
    ensures Steady(s', readings[1..])
  {
  }

  /** How often each notice occurs in each alert. */
  lemma AlertCounts()
    ensures multiset(FiveMinuteAlert)[FiveMinuteNotice] == 1 && multiset(FiveMinuteAlert)[FifteenMinuteNotice] == 0
    ensures multiset(FifteenMinuteAlert)[FifteenMinuteNotice] == 1 && multiset(FifteenMinuteAlert)[FiveMinuteNotice] == 0
    ensures multiset([PlaySound])[FiveMinuteNotice] == 0 && multiset([PlaySound])[FifteenMinuteNotice] == 0
  {
    assert FiveMinuteNotice.body != FifteenMinuteNotice.body;
  }

  /** A non-empty run is its first tick followed by the run of the rest. */
  lemma RunStep(s: PollState, rs: seq<Reading>)
    requires |rs| > 0
    ensures var t := Tick(s, rs[0].ce, rs[0].ne, rs[0].now);
            && Run(s, rs).effects == t.effects + Run(t.state, rs[1..]).effects
            && Run(s, rs).lines == (if t.line.Some? then [t.line.value] else []) + Run(t.state, rs[1..]).lines
            && Run(s, rs).state == Run(t.state, rs[1..]).state
  {
  }

  /** Running two stretches of readings in turn ends in the state their concatenation ends in. */
  lemma {:induction false} RunAppendState(s: PollState, xs: seq<Reading>, ys: seq<Reading>)
    ensures Run(s, xs + ys).state == Run(Run(s, xs).state, ys).state
    decreases |xs|
  {
    if |xs| > 0 {
      assert (xs + ys)[0] == xs[0];
      assert (xs + ys)[1..] == xs[1..] + ys;
      var t := Tick(s, xs[0].ce, xs[0].ne, xs[0].now);
      RunStep(s, xs);
      RunStep(s, xs + ys);
      RunAppendState(t.state, xs[1..], ys);
    } else {
      assert xs + ys == ys;
    }
  }

  /** Running two stretches of readings in turn asks for the effects of their concatenation, in order. */
  lemma {:induction false} RunAppendEffects(s: PollState, xs: seq<Reading>, ys: seq<Reading>)
    ensures Run(s, xs + ys).effects == Run(s, xs).effects + Run(Run(s, xs).state, ys).effects
    decreases |xs|
  {
    if |xs| > 0 {
      assert (xs + ys)[0] == xs[0];
      assert (xs + ys)[1..] == xs[1..] + ys;
      var t := Tick(s, xs[0].ce, xs[0].ne, xs[0].now);
      RunStep(s, xs);
      RunStep(s, xs + ys);
      RunAppendEffects(t.state, xs[1..], ys);
      RunAppendState(t.state, xs[1..], ys);
      assert Run(s, xs + ys).effects
          == t.effects + (Run(t.state, xs[1..]).effects + Run(Run(t.state, xs[1..]).state, ys).effects);
    } else {
      assert xs + ys == ys;
    }
  }

  /** Running two stretches of readings in turn prints the lines of their concatenation, in order. */
  lemma {:induction false} RunAppendLines(s: PollState, xs: seq<Reading>, ys: seq<Reading>)
    ensures Run(s, xs + ys).lines == Run(s, xs).lines + Run(Run(s, xs).state, ys).lines
    decreases |xs|
  {
    if |xs| > 0 {
      assert (xs + ys)[0] == xs[0];
      assert (xs + ys)[1..] == xs[1..] + ys;
      var t := Tick(s, xs[0].ce, xs[0].ne, xs[0].now);
      RunStep(s, xs);
      RunStep(s, xs + ys);
      RunAppendLines(t.state, xs[1..], ys);
      var printed := if t.line.Some? then [t.line.value] else [];
      assert Run(s, xs + ys).lines
          == printed + (Run(t.state, xs[1..]).lines + Run(Run(t.state, xs[1..]).state, ys).lines);
    } else {
      assert xs + ys == ys;
    }
  }

  /** Running two stretches of readings one after the other is running their concatenation. */
  lemma RunAppend(s: PollState, xs: seq<Reading>, ys: seq<Reading>)
    ensures Run(s, xs + ys).effects == Run(s, xs).effects + Run(Run(s, xs).state, ys).effects
    ensures Run(s, xs + ys).lines == Run(s, xs).lines + Run(Run(s, xs).state, ys).lines
    ensures Run(s, xs + ys).state == Run(Run(s, xs).state, ys).state
  {
    RunAppendState(s, xs, ys);
    RunAppendEffects(s, xs, ys);
    RunAppendLines(s, xs, ys);
  }

  /** While the window stays the same, each lead-time alert fires at most once, and not at all once flagged. */
  lemma {:induction false} AlertsFireAtMostOnce(s: PollState, readings: seq<Reading>)
    requires Steady(s, readings)
    ensures multiset(Run(s, readings).effects)[FiveMinuteNotice] <= (if s.announced2 then 0 else 1)
    ensures multiset(Run(s, readings).effects)[FifteenMinuteNotice] <= (if s.announced1 then 0 else 1)
    ensures Run(s, readings).lines == []
    decreases |readings|
  {
    if |readings| > 0 {
      var t := Tick(s, readings[0].ce, readings[0].ne, readings[0].now);
      SteadyTail(s, t.state, readings);
      AlertsFireAtMostOnce(t.state, readings[1..]);
    }
  }

  /** While the window stays the same, a state with both flags set stays silent. */
  lemma {:induction false} SilentOnceAnnounced(s: PollState, readings: seq<Reading>)
    requires Steady(s, readings) && s.announced1 && s.announced2
    ensures Run(s, readings) == RunResult(s, [], [])
    decreases |readings|
  {
    if |readings| > 0 {
      var t := Tick(s, readings[0].ce, readings[0].ne, readings[0].now);
      SteadyTail(s, t.state, readings);
      SilentOnceAnnounced(t.state, readings[1..]);
    }
  }

  /** A next event already under five minutes away gets the 5-minute alert and never the 15-minute one. */
  lemma {:induction false} InsideFiveMinutesSkipsFifteen(s: PollState, readings: seq<Reading>)
    requires Steady(s, readings) && !s.announced2 && FlagsOrdered(s)
    requires |readings| > 0 && readings[0].ne.Some?
    requires readings[0].ne.value.start < readings[0].now + 5 * Minute
    ensures multiset(Run(s, readings).effects)[FiveMinuteNotice] == 1
    ensures multiset(Run(s, readings).effects)[FifteenMinuteNotice] == 0
  {
    var t := Tick(s, readings[0].ce, readings[0].ne, readings[0].now);
    assert t.effects == FiveMinuteAlert;
    SteadyTail(s, t.state, readings);
    SilentOnceAnnounced(t.state, readings[1..]);
    assert Run(s, readings).effects == FiveMinuteAlert;
  }

  /** A change of window chimes, clears both flags and prints exactly one line. */
  lemma TransitionResets(s: PollState, r: Reading)
    requires !SameWindow(s, r.ce, r.ne)
    ensures Run(s, [r]) == RunResult(PollState(r.ce, r.ne, false, false), [PlaySound], [StatusLine(r.ce, r.ne)])
  {
  }

  /** The tick sees a next event starting within `lead` of its clock. */
  predicate Within(r: Reading, lead: Duration) {
    r.ne.Some? && r.ne.value.start < r.now + lead
  }

  /** The first position from `k` on whose tick sees the next event within `lead`, given that position `i` does. */
  function FirstWithin(readings: seq<Reading>, lead: Duration, k: nat, i: nat): (r: nat)
    requires k <= i < |readings| && Within(readings[i], lead)
    ensures k <= r <= i && Within(readings[r], lead)
    ensures forall j :: k <= j < r ==> !Within(readings[j], lead)
    decreases i - k
  {
    if Within(readings[k], lead) then k else FirstWithin(readings, lead, k + 1, i)
  }

  /** Splitting a steady run keeps both halves steady, for any state remembering the same window. */
  lemma SteadySplit(s: PollState, s': PollState, readings: seq<Reading>, k: nat)
    requires Steady(s, readings) && k <= |readings|
    requires s'.current == s.current && s'.next == s.next
    ensures Steady(s, readings[..k]) && Steady(s', readings[k..])
    ensures readings == readings[..k] + readings[k..]
  {
    assert forall j :: 0 <= j < |readings| - k ==> readings[k..][j] == readings[k + j];
  }

  /** Ticks that see the next event at least five minutes away never fire the 5-minute alert. */
  lemma {:induction false} OutsideFiveMinutes(s: PollState, xs: seq<Reading>)
    requires Steady(s, xs) && !s.announced2
    requires forall j :: 0 <= j < |xs| && xs[j].ne.Some? ==> xs[j].now + 5 * Minute <= xs[j].ne.value.start
    ensures multiset(Run(s, xs).effects)[FiveMinuteNotice] == 0
    ensures !Run(s, xs).state.announced2
    ensures Run(s, xs).state.current == s.current && Run(s, xs).state.next == s.next
    decreases |xs|
  {
    if |xs| > 0 {
      var t := Tick(s, xs[0].ce, xs[0].ne, xs[0].now);
      assert t.effects != FiveMinuteAlert;
      RunStep(s, xs);
      SteadyTail(s, t.state, xs);
      AlertCounts();
      assert forall j :: 0 <= j < |xs| - 1 ==> xs[1..][j] == xs[j + 1];
      OutsideFiveMinutes(t.state, xs[1..]);
    }
  }

  /** Ticks that see the next event at least fifteen minutes away leave an unflagged state silent and unchanged. */
  lemma {:induction false} OutsideFifteenMinutes(s: PollState, xs: seq<Reading>)
    requires Steady(s, xs) && !s.announced1 && !s.announced2
    requires forall j :: 0 <= j < |xs| ==> xs[j].ne.Some? && xs[j].now + 15 * Minute <= xs[j].ne.value.start
    ensures Run(s, xs).effects == [] && Run(s, xs).state == s
    decreases |xs|
  {
    if |xs| > 0 {
      var t := Tick(s, xs[0].ce, xs[0].ne, xs[0].now);
      assert t.effects == [] && t.state == s;
      RunStep(s, xs);
      SteadyTail(s, s, xs);
      assert forall j :: 0 <= j < |xs| - 1 ==> xs[1..][j] == xs[j + 1];
      OutsideFifteenMinutes(s, xs[1..]);
    }
  }

  /** A steady run whose first tick sees an unflagged next event under five minutes away has exactly one 5-minute notice. */
  lemma FiveMinuteAlertFiresFirst(s: PollState, readings: seq<Reading>)
    requires Steady(s, readings) && !s.announced2
    requires |readings| > 0 && readings[0].ne.Some?
    requires readings[0].ne.value.start < readings[0].now + 5 * Minute
    ensures multiset(Run(s, readings).effects)[FiveMinuteNotice] == 1
  {
    var t := Tick(s, readings[0].ce, readings[0].ne, readings[0].now);
    assert t.effects == FiveMinuteAlert;
    RunStep(s, readings);
    SteadyTail(s, t.state, readings);
    SilentOnceAnnounced(t.state, readings[1..]);
    AlertCounts();
  }

  /** While the window stays the same, the 5-minute alert fires exactly once if some tick is within five minutes. */
  lemma FiveMinuteAlertFiresOnce(s: PollState, readings: seq<Reading>, i: nat)
    requires Steady(s, readings) && !s.announced2
    requires i < |readings| && readings[i].ne.Some?
    requires readings[i].ne.value.start < readings[i].now + 5 * Minute
    ensures multiset(Run(s, readings).effects)[FiveMinuteNotice] == 1
  {
    var k := FirstWithin(readings, 5 * Minute, 0, i);
    var xs, ys := readings[..k], readings[k..];
    OutsideFiveMinutes(s, xs);
    var m := Run(s, xs).state;
    SteadySplit(s, m, readings, k);
    RunAppendEffects(s, xs, ys);
    FiveMinuteAlertFiresFirst(m, ys);
    AlertCounts();
    assert multiset(Run(s, readings).effects) == multiset(Run(s, xs).effects) + multiset(Run(m, ys).effects);
  }

  /** A steady, unflagged run whose first tick sees the next event 5 to 15 minutes away has exactly one 15-minute notice. */
  lemma FifteenMinuteAlertFiresFirst(s: PollState, readings: seq<Reading>)
    requires Steady(s, readings) && !s.announced1 && !s.announced2
    requires |readings| > 0 && readings[0].ne.Some?
    requires readings[0].now + 5 * Minute <= readings[0].ne.value.start < readings[0].now + 15 * Minute
    ensures multiset(Run(s, readings).effects)[FifteenMinuteNotice] == 1
  {
    var t := Tick(s, readings[0].ce, readings[0].ne, readings[0].now);
    assert t.effects == FifteenMinuteAlert;
    RunStep(s, readings);
    SteadyTail(s, t.state, readings);
    AlertsFireAtMostOnce(t.state, readings[1..]);
    AlertCounts();
  }

  /**
   * While the window stays the same, both flags are clear and every tick up to `i` sees the next event
   * at least five minutes away, the 15-minute alert fires exactly once if tick `i` is within fifteen minutes.
   */
  lemma FifteenMinuteAlertFiresOnce(s: PollState, readings: seq<Reading>, i: nat)
    requires Steady(s, readings) && !s.announced1 && !s.announced2
    requires i < |readings|
    requires forall j :: 0 <= j <= i ==>
               readings[j].ne.Some? && readings[j].now + 5 * Minute <= readings[j].ne.value.start
    requires readings[i].ne.value.start < readings[i].now + 15 * Minute
    ensures multiset(Run(s, readings).effects)[FifteenMinuteNotice] == 1
  {
    var k := FirstWithin(readings, 15 * Minute, 0, i);
    var xs, ys := readings[..k], readings[k..];
    SteadySplit(s, s, readings, k);
    OutsideFifteenMinutes(s, xs);
    RunAppendEffects(s, xs, ys);
    FifteenMinuteAlertFiresFirst(s, ys);
    assert Run(s, readings).effects == Run(s, ys).effects;
  }

  /** With no next event and an unchanged window, the loop does nothing at all. */
  lemma {:induction false} NoNextEventIsSilent(s: PollState, readings: seq<Reading>)
    requires Steady(s, readings)
    requires forall i :: 0 <= i < |readings| ==> readings[i].ne.None?
    ensures Run(s, readings) == RunResult(s, [], [])
    decreases |readings|
  {
    if |readings| > 0 {
      SteadyTail(s, s, readings);
      NoNextEventIsSilent(s, readings[1..]);
    }
  }

  /** On a day without events the loop, started from its initial state, never chimes and never prints. */
  lemma EmptyDayTailIsSilent(times: seq<Time>)
    ensures Run(Initial, seq(|times|, i requires 0 <= i < |times| => Observe([], times[i])))
         == RunResult(Initial, [], [])
  {
    var readings := seq(|times|, i requires 0 <= i < |times| => Observe([], times[i]));
    assert forall i :: 0 <= i < |readings| ==> readings[i] == Reading(None, None, times[i]);
    NoNextEventIsSilent(Initial, readings);
  }

  /** What the loop resolves around the end of a 09:00-10:00 event followed by one at 10:10. */
  lemma HandOverReadings(a: Event, b: Event, now: Time)
    requires a.start == 9 * Hour && a.end == 10 * Hour
    requires b.start == 10 * Hour + 10 * Minute && b.end > b.start
    requires 9 * Hour < now < b.start
    ensures now < 10 * Hour ==> Observe([a, b], now) == Reading(Some(a), Some(b), now)
    ensures now >= 10 * Hour ==> Observe([a, b], now) == Reading(None, Some(b), now)
  {
    var events := [a, b];
    assert events[0] == a && events[1] == b;
    assert !IsUpcoming(events[0], now) && IsUpcoming(events[1], now);
    assert !IsCurrent(events[1], now);
  }

  /** An unchanged window whose next event is 5 to 15 minutes away, not yet announced, gets the 15-minute alert. */
  lemma FifteenMinuteTick(s: PollState, now: Time)
    requires s.next.Some? && !s.announced1
    requires now + 5 * Minute <= s.next.value.start < now + 15 * Minute
    ensures Run(s, [Reading(s.current, s.next, now)]).effects == FifteenMinuteAlert
    ensures Run(s, [Reading(s.current, s.next, now)]).state == PollState(s.current, s.next, true, s.announced2)
  {
    var k := Announce(s, s.next.value, now);
    assert k.effects == FifteenMinuteAlert;
  }

  /** A new window chimes; a later tick 5 to 15 minutes before its next event then fires the 15-minute alert. */
  lemma ChimeThenFifteen(s: PollState, ce: Option<Event>, ne: Event, t: Time, t': Time)
    requires !SameWindow(s, ce, Some(ne))
    requires t' + 5 * Minute <= ne.start < t' + 15 * Minute
    ensures Run(s, [Reading(ce, Some(ne), t), Reading(ce, Some(ne), t')]).effects == [PlaySound] + FifteenMinuteAlert
    ensures Run(s, [Reading(ce, Some(ne), t), Reading(ce, Some(ne), t')]).state == PollState(ce, Some(ne), true, false)
  {
    var r, r' := Reading(ce, Some(ne), t), Reading(ce, Some(ne), t');
    TransitionResets(s, r);
    FifteenMinuteTick(PollState(ce, Some(ne), false, false), t');
    RunAppend(s, [r], [r']);
    assert [r] + [r'] == [r, r'];
  }

  /** Two chimed 15-minute alerts hold the 15-minute notice twice. */
  lemma TwoFifteenMinuteAlerts(effects: seq<Effect>)
    requires effects == [PlaySound] + FifteenMinuteAlert + ([PlaySound] + FifteenMinuteAlert)
    ensures multiset(effects)[FifteenMinuteNotice] == 2
  {
    AlertCounts();
    assert multiset(effects)
        == multiset([PlaySound]) + multiset(FifteenMinuteAlert) + (multiset([PlaySound]) + multiset(FifteenMinuteAlert));
  }

  /** Across the hand-over the 15-minute alert for the same next event fires twice. */
  lemma HandOverTicks(a: Event, b: Event, t0: Time, t1: Time, t2: Time, t3: Time, readings: seq<Reading>)
    requires b.start == 10 * Hour + 10 * Minute
    requires t0 == 9 * Hour + 55 * Minute && t1 == 9 * Hour + 56 * Minute
    requires t2 == 10 * Hour && t3 == 10 * Hour + Second
    requires readings == [Reading(Some(a), Some(b), t0), Reading(Some(a), Some(b), t1),
                          Reading(None, Some(b), t2), Reading(None, Some(b), t3)]
    ensures multiset(Run(Initial, readings).effects)[FifteenMinuteNotice] == 2
  {
    var xs := [Reading(Some(a), Some(b), t0), Reading(Some(a), Some(b), t1)];
    var ys := [Reading(None, Some(b), t2), Reading(None, Some(b), t3)];
    assert readings == xs + ys;
    ChimeThenFifteen(Initial, Some(a), b, t0, t1);
    ChimeThenFifteen(PollState(Some(a), Some(b), true, false), None, b, t2, t3);
    RunAppend(Initial, xs, ys);
    TwoFifteenMinuteAlerts(Run(Initial, readings).effects);

  }

  /**
   * When the current event ends while the next one stays the same, the window still counts
   * as changed: both flags are cleared and the next event's 15-minute alert fires again.
   * Event a runs 09:00-10:00 and b starts at 10:10; the loop ticks at 09:55, 09:56, 10:00
   * and one second after 10:00.
   */
  lemma CurrentEndingRearmsAlerts(a: Event, b: Event)
    requires a.start == 9 * Hour && a.end == 10 * Hour
    requires b.start == 10 * Hour + 10 * Minute && b.end > b.start
    ensures var events := [a, b];
            var readings := [Observe(events, 9 * Hour + 55 * Minute), Observe(events, 9 * Hour + 56 * Minute),
                             Observe(events, 10 * Hour), Observe(events, 10 * Hour + Second)];
            multiset(Run(Initial, readings).effects)[FifteenMinuteNotice] == 2
  {
    var t0, t1, t2, t3 := 9 * Hour + 55 * Minute, 9 * Hour + 56 * Minute, 10 * Hour, 10 * Hour + Second;
    HandOverReadings(a, b, t0);
    HandOverReadings(a, b, t1);
    HandOverReadings(a, b, t2);
    HandOverReadings(a, b, t3);
    var events := [a, b];
    var readings := [Observe(events, t0), Observe(events, t1), Observe(events, t2), Observe(events, t3)];
    assert readings == [Reading(Some(a), Some(b), t0), Reading(Some(a), Some(b), t1),
                        Reading(None, Some(b), t2), Reading(None, Some(b), t3)];
    HandOverTicks(a, b, t0, t1, t2, t3, readings);
  }
}
