# i3-ics-agenda: event window and cache model

A Dafny model of the decision logic in the i3 status-bar agenda `main.go`:

- **Window resolver.** Finds the event running now: the first event in list order with `start < now < end`, with both comparisons strict. Finds the next event: the first event with `start > now`.
- **Event identity.** Two events are the same event when their Uids match. Two absent events are also the same.
- **Tail loop.** One pass of the `tail` poll loop is one pure tick. It diffs the resolved window against the remembered one. It returns the chime and notification effects to perform and the status line to print. A run feeds the tick one reading after another, each resolved from the day's events at that tick's `now`.
- **Agenda.** The `agenda` list prints one entry per event and flags only the first running event TRUE.
- **Cache and loader.** The cache file is used when `stat` succeeds, its modification time is no older than the cache duration, it opens, and its JSON decodes. Otherwise the loader fetches the feed, sorts it by start, writes it back, and returns it.
- **Formatting helpers.** `fixedSizeString` truncates by bytes. `getTimeString` renders `HH:MM`.

How values are modelled:
- An instant is an `int` number of nanoseconds of local wall-clock time, counted from an epoch that falls on a local midnight. A duration is an `int` number of nanoseconds, as in Go.
- Summaries are byte sequences.
- Every call receives one `now` instead of calling `time.Now()`.
- Network, file-system, parser, audio and D-Bus results are inputs. Effects are returned as values.

Modules, one per component:
- `Wrappers`: `Option`, `Result`.
- `Events`: the event datatype, times, `EventsEqual`.
- `Format`: the formatting helpers.
- `Resolver`: the current and next event.
- `Sorting`: the sort step.
- `Cache`: the cache store.
- `Loader`: `getTodaysEvents`.
- `Tail`: one tick of the poll loop.
- `PollLoop`: the poll loop over many ticks.
- `Agenda`: the agenda list.

Where the code departs from what a reader of this tool would expect, the model follows the code. The one exception is `Tail.StatusLineIntended`, which sits next to the as-written `Tail.StatusLine` and states the intended `Upcoming:` line (see Findings):
- **Current event.** One might expect an event to be current from `start <= now`. The code requires `start < now`. So at the very instant an event starts, it is neither current nor next (`Resolver.StartInstantIsInBetween`).
- **Sort.** One might expect events with equal starts to keep their feed order. The code uses `sort.Slice`, which is not stable. The model claims only that the output is sorted by start and is a permutation of the input.
- **Cache write.** One might expect a failed cache write to be best-effort. The code returns it as an error, and the model does the same (`Loader.GetTodaysEvents`).
- **Alerts.** One might expect each lead-time alert to fire exactly once per next event. In the code, the 5-minute check runs first and sets both flags. So a next event that is first seen less than five minutes away gets only the 5-minute alert (`PollLoop.InsideFiveMinutesSkipsFifteen`). Otherwise each alert does fire exactly once while the window is unchanged (`PollLoop.FiveMinuteAlertFiresOnce`, `PollLoop.FifteenMinuteAlertFiresOnce`).
- **Alert re-arming.** The flags belong to the whole window, not to the next event. When the current event ends while the next event stays the same, the window still counts as changed. Both flags are cleared, the loop chimes again, and the next event's 15-minute alert fires a second time (`PollLoop.CurrentEndingRearmsAlerts`). The at-most-once lemmas therefore hold only while both identities stay unchanged.
- **Empty day.** The loop starts from "no current, no next". On a day without events no tick ever sees a change, so the `tail` mode never prints "No upcoming Events" and never chimes (`PollLoop.EmptyDayTailIsSilent`).
- **Cache age.** A cache file whose age equals the cache duration exactly counts as fresh, because the code tests `ModTime().Before(now - d)`.

## Model

| member | source | states |
|---|---|---|
| `Events.EventsEqual` | main.go:168-176 | Two absent events are equal. An absent event never equals a present one. Two present events are equal exactly when their Uids match. |
| `Events.EventsEqualIsEquivalence` | main.go:168-176 | Identity comparison is reflexive, symmetric and transitive. |
| `Resolver.FirstIndex` | main.go:179-184 | The forward scan stops at the first matching position, with no match before it, or past the end when nothing matches. |
| `Resolver.CurrentEvent` | main.go:178-185 | Returns None exactly when no event has `start < now < end`. Otherwise returns a running event from some position with no running event before it. |
| `Resolver.CurrentEventAt` | main.go:178-185 | The current event is exactly the event at the first running position. |
| `Resolver.NextEvent` | main.go:187-194 | Returns None exactly when no event starts after `now`. Otherwise returns an event starting after `now` from some position with no such event before it. |
| `Resolver.NextEventIsEarliest` | main.go:187-194 | On a start-sorted list, the next event's start is the minimum start among all events starting after `now`. |
| `Resolver.NextEventStableUntilStart` | main.go:187-194 | For any later instant before the next event's start, the next event is the same. |
| `Resolver.NextEventBecomesCurrent` | main.go:178-194 | Once the next event has started and has not yet ended, some event is current, and the next event is a different one or none. |
| `Resolver.StartInstantIsInBetween` | main.go:178-194 | At the exact instant an event starts, it is neither the current event nor the next one. |
| `Resolver.EmptyDay` | main.go:178-194 | An empty list has no current event and no next event. |
| `Resolver.SingleEventScenario` | main.go:178-194 | With one event 09:00-10:00, asked at 09:30: the event is current and nothing is next. |
| `Resolver.GapScenario` | main.go:178-194 | With events 09:00-10:00 and 11:00-12:00, asked at 10:30: nothing is current and the second event is next. |
| `Sorting.Insert` | main.go:245-247 | Inserting into a start-sorted list keeps it sorted and adds exactly one copy of the event. |
| `Sorting.SortByStart` | main.go:245-247 | The result is sorted ascending by start and is a permutation of the input. |
| `Cache.LoadEventsFromCache` | main.go:196-221 | The cached events are returned exactly when stat succeeds, `now - modTime <= duration`, the open succeeds and the decode succeeds. A failed stat is reported first, then "too old". Any failure is a miss. |
| `Cache.AgeAtDurationIsHit` | main.go:203-206 | A file whose age equals the cache duration exactly is a hit. |
| `Cache.ReadCache` | main.go:196-221 | A missing file is a stat failure. A hit returns exactly the file's payload. |
| `Cache.CacheEvents` | main.go:252-270 | A write reports success exactly when it succeeded. A successful write stores the events with the write time. Other feeds' files are untouched. |
| `Cache.WriteThenRead` | main.go:196-265 | A successful write is read back unchanged for as long as its age stays within the cache duration. |
| `Cache.WrittenFileExpires` | main.go:196-265 | Once the written file is older than the duration, reading it is a "too old" miss. |
| `Cache.WriteIsolatesFeeds` | main.go:252-270 | Writing one URL's cache file never changes what is read for another URL. |
| `Loader.LoadEventsFromUrl` | main.go:223-250 | Fails exactly when the request or the parse failed, with the same error. Otherwise returns a start-sorted permutation of the parsed events. |
| `Loader.GetTodaysEvents` | main.go:272-286 | On a cache hit, returns the cached events and performs no fetch. On a miss, a fetch error is an error, and a cache-write error is an error too. Otherwise it returns exactly the sorted fetched events that it wrote. |
| `Loader.GetTodaysEventsOnStore` | main.go:272-286 | A fetch happens exactly when the cache read fails. The store changes only when a write was attempted, and only at the feed's own key. |
| `Loader.FetchThenCacheHit` | main.go:272-286 | After a successful fetch, a later call within the cache duration returns the same events from the cache, with no fetch. |
| `Loader.LoadKeepsEventsSorted` | main.go:245-286 | While every cached payload is sorted, every load returns a start-sorted list and the store stays sorted. |
| `Format.FixedSizeString` | main.go:315-320 | A text of at most `max` bytes comes back unchanged. A longer one comes back as its first `max` bytes followed by the ellipsis, so its length is max plus the ellipsis length. |
| `Format.FixedSizeStringIdempotent` | main.go:315-320 | Truncating an already truncated text changes nothing. |
| `Format.Precision` | main.go:133 | `%.40s` keeps a prefix of the text, whose length is the smaller of the text length and 40. |
| `Format.ClockHour` | main.go:311 | The clock hour is below 24, and the instant lies within that hour of its day. |
| `Format.ClockMinute` | main.go:311 | The clock minute is below 60, and the instant lies within that minute of its hour. |
| `Format.TwoDigits` | main.go:312 | `%02d` gives two decimal digits whose value is the number. |
| `Format.TimeString` | main.go:310-313 | The result is five characters: two digits, `:`, two digits. The digits spell the clock hour and the clock minute. |
| `Format.TimeStringRoundTrip` | main.go:310-313 | Parsing the rendered `HH:MM` gives back the clock hour and minute. |
| `Format.TimeStringInjective` | main.go:310-313 | Two instants render alike exactly when they share the clock hour and minute. |
| `Tail.UpcomingSummaryAsWritten` | main.go:133 | As written, for ASCII text, the `Upcoming:` summary of a text over 40 bytes is just its first 40 bytes. |
| `Tail.UpcomingLineDropsEllipsis` | main.go:133 | A 41-byte ASCII summary is shown on the `Upcoming:` line as 40 bytes, with no ellipsis. |
| `Tail.UpcomingSummary` | main.go:129-133 | As intended, a summary over 40 bytes is cut to 40 bytes and ends in the ellipsis, as on the `Current:` line. |
| `Tail.UpcomingSummaryRestoresEllipsis` | main.go:129-133 | The intended summary is the written one with the ellipsis restored exactly when the text is over 40 bytes. |
| `Tail.StatusLine` | main.go:124-137 | The printed line is "no events", current only, upcoming only, or both, according to which events are present. It carries their `HH:MM` times. The current-only summary is cut to 40 bytes with the ellipsis. Each summary on the two-event line is cut to 30 bytes with the ellipsis. The upcoming-only summary is cut as written: for ASCII text, at most its first 40 bytes, with no ellipsis. |
| `Tail.StatusLineIntended` | main.go:129-133 | The intended line differs only on the upcoming-only line: its summary keeps the ellipsis, as on the current-only line. |
| `Tail.StatusLineDeparts` | main.go:129-133 | The printed line departs from the intended one exactly when there is no current event and the next event's summary is over 40 bytes. |
| `Tail.SameWindow` | main.go:100 | The window is unchanged when both resolved events match the remembered ones by identity. An unchanged window has a current event exactly when the remembered one is present, and likewise for the next event. |
| `Tail.InitialTick` | main.go:89-122 | The loop starts with no events and both flags clear. Its first tick does nothing when no event is resolved. Otherwise it chimes, stores the resolved events with both flags clear, and prints one line. |
| `Tail.Announce` | main.go:100-116 | The stored events are kept and the flags only go from false to true. The 5-minute alert fires exactly when it is not yet flagged and the event starts within 5 minutes, and then it sets both flags. Otherwise the 15-minute alert fires exactly when it is not yet flagged and the event starts within 15 minutes. At most one alert fires. |
| `Tail.Tick` | main.go:97-137 | When either identity changed: chime, both flags cleared, stored events replaced by the new ones, and the as-written status line. When both identities are unchanged: nothing printed, stored events kept, flags only set, at most one alert, and the 5-minute flag set only by the 5-minute alert. Nothing fires when there is no next event or both flags are set. A flagged 5-minute alert keeps the 15-minute flag set. |
| `PollLoop.AlertsFireAtMostOnce` | main.go:100-116 | Over any run of ticks with unchanged identities, each lead-time alert fires at most once. An alert already flagged never fires, and no line is printed. |
| `PollLoop.SilentOnceAnnounced` | main.go:100-116 | Once both flags are set, a run with unchanged identities has no effects, prints nothing, and keeps the state. |
| `PollLoop.InsideFiveMinutesSkipsFifteen` | main.go:102-113 | A next event first seen under 5 minutes away gets the 5-minute alert exactly once and never the 15-minute alert. |
| `PollLoop.Observe` | main.go:97-98 | A tick's reading carries the clock and the resolver's answers: a current event from the list that is running, a next event from the list that starts later, and each absent exactly when no event qualifies. |
| `PollLoop.Run` | main.go:94-138 | A run prints at most one line per tick and asks for at most two effects per tick. The other run lemmas below describe what it does tick by tick. |
| `PollLoop.RunEndsOnLastWindow` | main.go:100-122 | After a non-empty run, the remembered window matches the last reading's events by identity. A run never sets the 5-minute flag without the 15-minute one. |
| `PollLoop.TransitionResets` | main.go:118-123 | A tick whose window changed chimes, clears both flags, stores the new events and prints exactly one line. |
| `PollLoop.RunAppendState` | main.go:94-137 | Running two stretches of ticks in turn ends in the same state as running them as one. |
| `PollLoop.RunAppendEffects` | main.go:94-137 | Running two stretches of ticks in turn performs the same effects, in the same order, as running them as one. |
| `PollLoop.RunAppendLines` | main.go:94-137 | Running two stretches of ticks in turn prints the same lines, in the same order, as running them as one. |
| `PollLoop.RunAppend` | main.go:94-137 | The three facts above together: a run of concatenated readings is the second run continued from the first run's state. |
| `PollLoop.FiveMinuteAlertFiresOnce` | main.go:100-107 | While the identities stay unchanged and the 5-minute flag is clear, the 5-minute alert fires exactly once if some tick sees the next event less than 5 minutes away. |
| `PollLoop.OutsideFiveMinutes` | main.go:100-113 | While the window is unchanged and every tick sees the next event at least 5 minutes away, the 5-minute alert never fires, its flag stays clear, and the remembered events are kept. |
| `PollLoop.OutsideFifteenMinutes` | main.go:100-113 | While the window is unchanged, both flags are clear and every tick sees the next event at least 15 minutes away, the loop does nothing and keeps its state. |
| `PollLoop.FiveMinuteAlertFiresFirst` | main.go:100-116 | If the first tick of an unchanged window sees the next event under 5 minutes away with the 5-minute flag clear, the run has exactly one 5-minute notice. |
| `PollLoop.FifteenMinuteAlertFiresFirst` | main.go:100-116 | If the first tick of an unchanged, unflagged window sees the next event 5 to 15 minutes away, the run has exactly one 15-minute notice. |
| `PollLoop.FifteenMinuteAlertFiresOnce` | main.go:100-113 | While the window is unchanged and both flags are clear, if every tick up to some tick sees the next event at least 5 minutes away and that tick sees it under 15 minutes away, the 15-minute alert fires exactly once. |
| `PollLoop.NoNextEventIsSilent` | main.go:100-116 | With no next event and unchanged identities, a run has no effects, prints nothing and keeps the state. |
| `PollLoop.EmptyDayTailIsSilent` | main.go:89-100 | On a day without events, a run from the initial state at any clock readings chimes never, prints nothing and stays in the initial state. |
| `PollLoop.FifteenMinuteTick` | main.go:109-113 | An unchanged window whose next event is 5 to 15 minutes away, with the 15-minute flag clear, gets the 15-minute alert and sets that flag. |
| `PollLoop.ChimeThenFifteen` | main.go:100-122 | A changed window chimes; a following tick 5 to 15 minutes before the next event fires the 15-minute alert. |
| `PollLoop.HandOverReadings` | main.go:178-194 | With events 09:00-10:00 and 10:10, before 10:00 the first is current and the second next; from 10:00 nothing is current and the second is next. |
| `PollLoop.HandOverTicks` | main.go:100-122 | Ticks at 09:55 and 09:56 with both events, then at 10:00 and 10:00:01 with only the next event, give the 15-minute notice twice. |
| `PollLoop.CurrentEndingRearmsAlerts` | main.go:97-122 | With events 09:00-10:00 and 10:10, the loop resolving the day at 09:55, 09:56, 10:00 and 10:00:01 sends the 15-minute notice for the 10:10 event twice. |
| `Agenda.AgendaEntries` | main.go:139-148 | Exactly one entry per event, in order. An entry is flagged exactly when its event is the first running one. At most one entry is flagged. A flagged entry holds the event `CurrentEvent` returns, and some entry is flagged exactly when `CurrentEvent` returns an event. |

## Findings

| source | as written | input that shows it | evidently intended | confidence | as-written member | corrected member |
|---|---|---|---|---|---|---|
| main.go:133 | The `Upcoming:` line formats `fixedSizeString(summary, 40, "...")` with `%.40s`. That cuts the result back to 40 runes, which removes the ellipsis that was just added. | A next event whose ASCII summary is 41 bytes long, e.g. 41 × `a`, with no current event. The line shows 40 `a` and no `...`. | The summary is cut to 40 bytes and ends in `...`, as on the `Current:` line (main.go:129). | medium; not executed | `Tail.UpcomingSummaryAsWritten`, `Tail.UpcomingLineDropsEllipsis`, `Tail.StatusLine` | `Tail.UpcomingSummary`, `Tail.UpcomingSummaryRestoresEllipsis`, `Tail.StatusLineIntended`, `Tail.StatusLineDeparts` |

## Left out

- Flag parsing and the panics on missing flags or load errors (main.go:29-45): process plumbing.
- The mode switch and one-shot rendering of `current`, `next` and `agenda` (main.go:62-86, 288-290, 302-308): these print the resolver's result, and printing is not modelled. The agenda is modelled as its list of flagged entries. Tail lines are the `TailLine` values with their rendered fields, not the formatted bytes.
- `renderEventLinkAsString` (main.go:292-300): depends on Go's regular-expression engine.
- `http.Get`, the calendar parser, the time-zone mapper and today's window (main.go:223-243): network and a foreign library. Their outcome is the `parsed` input of `Loader.LoadEventsFromUrl`.
- `generateCacheFilename` (main.go:267-270): SHA-1 and base64 are foreign calls. The cache store is keyed by the URL itself, which is what the digest provides when there are no collisions.
- JSON encoding and decoding: foreign library calls. A cache file's payload is the event list, or None when it does not decode. Encoding followed by decoding is taken to return the same events.
- The bytes that a failed or partial write leaves behind: `cacheEvents` opens without truncation. The file left by a failed write is an input (`WriteOutcome.WriteFailed`).
- WAV decoding, speaker playback and the D-Bus `sendNotification` (main.go:47-60, 152-166): audio and desktop I/O. They are the `PlaySound` and `Notify` effect values. The notification's error is ignored, as in the code.
- `time.Sleep` and the endless loop: `PollLoop.Run` feeds a finite sequence of readings to `Tail.Tick`. Each reading carries the current and next events that the resolver produced for that tick (`PollLoop.Observe`).
- The repeated `time.Now()` calls inside one test: one `now` per call.
- 64-bit overflow of Go's `time.Duration` and `time.Time` arithmetic: instants and durations are unbounded integers.
- A missing start or end time on a parsed event: every event is assumed to have both.
- Daylight-saving shifts in the clock: `Format.ClockHour` and `Format.ClockMinute` read the hour and minute from local nanoseconds since a local midnight.
- Format.Precision: counts one byte as one rune. This is exact for ASCII text, but Go's `%.40s` counts multi-byte UTF-8 runes as one each.
- Sorting.SortByStart: fixes one arrangement for events with equal starts. `sort.Slice` may arrange such ties differently, so only sortedness and permutation are claimed.
