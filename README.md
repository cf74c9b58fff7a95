# flightpi, modelled in Dafny

flightpi is a Raspberry Pi flight display. It does three things:

- A display loop (`flight.py`) asks adsb.lol every twelve seconds for the aircraft nearest to home. It looks up that aircraft's record, route and photo, draws a card on a small LCD, and logs the sighting.
- The logger (`flight_logger.py`) turns the stream of sightings into *events* in an SQLite table `flights`. A sighting with the same `hex|reg|callsign` key as an event last seen at most 20 minutes earlier extends that event. A sighting without such a match starts a new event.
- A Flask app (`web_server.py`) reads the table back. It lists recent events, aggregates one aircraft's history, and serves a military-aircraft feed through a small JSON cache of adsbdb lookups.

The model is seven modules, one per file:

- `Base`: Option and Result. A Result stands for a Python call that returns or raises.
- `Text`: Python's `str.strip`, `str.upper`, `str.split` and `"|"` handling on `seq<char>`.
- `Json`: decoded JSON values, with Python truthiness, `or` and `dict.get`.
- `FlightLogger`: the coalescer. It has a specification function `Ingest` over a table value and a class `FlightLog` whose `LogFlight` method updates the table in place and is proved equal to `Ingest`.
- `Wrap`: `wrap_lines`, written as loops and proved against greedy-fill and truncation functions. The font measure is an arbitrary function from strings to widths.
- `Flight`: the display loop without the drawing. A class `Poller` holds `last_key` and the three caches. Its cycle is proved to equal a pure `Poll`.
- `WebServer`: `get_flight_detail` and `get_recent_flights` as functions over the rows, the mil cache as a class over a map, and `api_mil` as a loop proved equal to a specification function.

Other modelling choices:

- Timestamps are whole seconds. The source stores ISO-8601 strings of one fixed format and compares them as text, which orders them the same way.
- Network answers and cache lookups are parameters of the model, either as values or as functions.

## Model

| member | source | states |
|---|---|---|
| FlightLogger.KeyPart | flight_logger.py:68-70 | `(value or "").strip()`: "" for a missing value, otherwise exactly the stripped value |
| FlightLogger.BuildEventKey | flight_logger.py:64-71 | the key is the three stripped parts with a bar after the first and after the second, so its length is theirs plus two; with the bars removed it is empty exactly when each part is bars only; all parts missing gives "||" |
| FlightLogger.IsDegenerate | flight_logger.py:91 | `not key.replace("|", "")` holds exactly when the key consists of bars only |
| FlightLogger.SightingKey | flight_logger.py:88-93 | the key of a sighting is degenerate exactly when each of its stripped hex, registration and callsign is bars only |
| FlightLogger.EventKeyInjective | flight_logger.py:64-71 | two keys are equal exactly when their stripped hex, registration and callsign are equal, provided hex and registration contain no bar character |
| FlightLogger.DegenerateKeyIff | flight_logger.py:88-93 | a key is degenerate (nothing left once the separator bars are removed) exactly when each stripped part consists of bars only; in particular when hex, registration and callsign are all missing or empty |
| FlightLogger.Stamp | flight_logger.py:83-86 | the stamped row always has a `seen_at`: its own when present, otherwise the current time; nothing else changes |
| FlightLogger.StampKeepsKey | flight_logger.py:83-88 | writing `seen_at` back into the row does not change its key |
| FlightLogger.FreshestMatch | flight_logger.py:103-116 | the row returned has the key and `last_seen >= cutoff` and the greatest `last_seen` among such rows; none is returned exactly when no row qualifies |
| FlightLogger.Matched | flight_logger.py:90-116 | no match exactly when the key is degenerate or no row of that key lies in the 20-minute window; otherwise the freshest row in the window |
| FlightLogger.Sticky | flight_logger.py:131-140 | `COALESCE(NULLIF(stored, ''), new)`: a non-null, non-empty stored value is kept, otherwise the new value is taken |
| FlightLogger.MergeDescriptive | flight_logger.py:131-140 | each of the ten descriptive columns is merged by the sticky rule |
| FlightLogger.UpdatedEvent | flight_logger.py:120-162 | the update sets `last_seen` and `seen_at` to the new time and adds one to `times_seen`; id, `first_seen`, key, hex, registration, callsign and type stay the same; telemetry is overwritten; descriptive columns are merged |
| FlightLogger.NewEvent | flight_logger.py:172-235 | the inserted row has `first_seen = last_seen = seen_at`, `times_seen = 1`, the given id and key, and every other column copied from the sighting |
| FlightLogger.Step | flight_logger.py:90-169 | with no match, the table gains exactly the new row with the next id and the counter advances; with a match, only that row is replaced by its update and the counter stays |
| FlightLogger.Ingest | flight_logger.py:74-169 | `log_flight` adds at most one row; every row already there keeps its place, id and key, and the counter grows by the number of rows added |
| FlightLogger.IngestAll | flight_logger.py:74-169 | N calls add at most N rows, with the earlier rows kept in place with their ids and keys |
| FlightLogger.StepPreservesValid | flight_logger.py:118-169 | one call keeps the table invariant: `times_seen >= 1`, `seen_at == last_seen`, ids increasing in insertion order and below the AUTOINCREMENT counter |
| FlightLogger.IngestPreservesValid | flight_logger.py:74-169 | the same invariant holds for a whole `log_flight` call |
| FlightLogger.StepCases | flight_logger.py:90-169 | one call either updates exactly the freshest row in the window and leaves the others and the counter unchanged, or appends exactly one new row |
| FlightLogger.CoalesceOrInsert | flight_logger.py:74-169 | the same split, stated for `log_flight` on the raw row: update when the key is not degenerate and has a candidate, append otherwise |
| FlightLogger.DegenerateAlwaysInserts | flight_logger.py:90-93 | a sighting with a degenerate key always appends a row with `times_seen = 1` and the next id |
| FlightLogger.InsertedRowIsFresh | flight_logger.py:167-235 | an appended row has an id above every existing id, `first_seen = last_seen = seen_at`, `times_seen = 1`, every column from the sighting and the sighting's key; earlier rows are untouched |
| FlightLogger.WindowIsInclusive | flight_logger.py:95-114 | the window is inclusive: a gap of exactly 20 minutes extends the event, while 20 minutes and one second starts a new one |
| FlightLogger.WindowStep | flight_logger.py:95-114 | against a single row, a sighting inside the window updates it and one outside adds a second row |
| FlightLogger.StickyRunFirstNonBlank | flight_logger.py:131-140 | over a run of updates, a column keeps the first non-empty value it received, however many values follow |
| FlightLogger.StickyRunAllBlank | flight_logger.py:131-140 | while only null or empty values arrive, the column holds the latest one |
| FlightLogger.DegenerateNeverMerges | flight_logger.py:90-93 | N sightings with degenerate keys append N fresh rows with consecutive ids and leave the earlier rows alone |
| FlightLogger.IngestAllKeyed | flight_logger.py:88 | for sightings that share one key, repeated `log_flight` calls equal the same steps with that key passed in |
| FlightLogger.CoalescedSteps | flight_logger.py:95-165 | a run of sightings of one key, in order and each within 20 minutes of the previous one, makes one new event: `times_seen` equals the run length, `first_seen` is the run's first time and `last_seen` its last |
| FlightLogger.CoalescedRun | flight_logger.py:74-169 | the same fact for repeated `log_flight` calls |
| FlightLogger.StepCoherent | flight_logger.py:95-169 | when sightings arrive in time order, every row keeps `first_seen <= last_seen`, and two events of one key stay more than 20 minutes apart |
| FlightLogger.CoherencePreserved | flight_logger.py:74-169 | the same for `log_flight` on the raw row |
| FlightLogger.OpenEventUnique | flight_logger.py:103-116 | in such a table, at most one row of a key lies within the window, so the `LIMIT 1` choice is never arbitrary |
| FlightLogger.FlightLog.InsertNewEvent | flight_logger.py:172-239 | appends the new row with the counter's id and advances the counter, keeping the invariant |
| FlightLogger.FlightLog.MatchOrInsert | flight_logger.py:88-169 | the table afterwards equals one step of the specification |
| FlightLogger.FlightLog.LogFlight | flight_logger.py:74-169 | returns the row with `seen_at` filled in, keeps the invariant, and leaves the table equal to `Ingest` of the old table |
| Text.Strip | flight_logger.py:68-70 | the result has no leading or trailing Python whitespace, is empty exactly when the input is all whitespace, and is the input less a run of whitespace at each end |
| Text.UpperChar | flight.py:444-447 | a lower-case ASCII letter is moved 32 code points down to its capital; every other character is kept; whitespace stays whitespace |
| Text.Upper | flight.py:444-447 | `str.upper()` keeps the length and upper-cases every lower-case ASCII letter in place, leaving every other character alone |
| Text.UpperOfUpper | flight.py:444-447 | upper-casing a string with no lower-case letter changes nothing |
| Text.Normalize | flight.py:444-447 | `strip().upper()`: the upper-cased input less a run of whitespace at each end, so stripped and with no lower-case letter; empty exactly when the input is all whitespace |
| Text.NormalizeIdempotent | flight.py:444-447 | normalising twice equals normalising once |
| Text.SplitWords | flight.py:116 | `str.split()` gives non-empty words with no whitespace, none exactly when the text is all whitespace, and the text is exactly those words in order separated by runs of whitespace |
| Text.RemoveBars | flight_logger.py:91 | removing every bar character leaves nothing exactly when the string consists of bars only |
| Text.BarJoinInjective | flight_logger.py:71 | joining three parts with bar separators is injective when the first two contain no bar character |
| Json.GetOr | flight.py:444 | `dict.get(key, default)`: the stored value, or the default when the key is missing; an AttributeError when the value is not a dict |
| Json.TextOf | flight.py:444 | `(value or "")` used as a string: "" for falsy values, the string itself for a string, an error for anything else |
| Json.Or | flight.py:461 | Python `a or b`: `a` when it is truthy, otherwise `b` |
| Json.Get | web_server.py:395-405 | `obj.get(key)`: succeeds exactly for a dict, giving the stored value or None |
| Json.StrOrNull | flight.py:487-491 | `s or None`: null exactly for "", otherwise the string |
| Wrap.Fill | flight.py:119-127 | the greedy fill gives at least one line and at most one more than the words left |
| Wrap.GreedyLines | flight.py:116-127 | the loop gives no lines exactly when there are no words, and never more lines than words |
| Wrap.Shorten | flight.py:131-132 | the truncation loop leaves a prefix that is empty or fits with the ellipsis, and no longer prefix fits |
| Wrap.WrapLines | flight.py:115-135 | the method's result equals `Wrapped`, the greedy fill followed by truncation |
| Wrap.FillLines | flight.py:119-127 | the for-loop's lines equal the greedy fill of the words |
| Wrap.TruncateLines | flight.py:128-134 | the truncation branch equals `Truncated` |
| Wrap.Wrapped | flight.py:115-135 | never more than `max_lines` lines, and none exactly when the text is missing, empty or all whitespace |
| Wrap.Truncated | flight.py:128-134 | exactly `max_lines` lines: the first `max_lines - 1` unchanged, and the last the longest prefix of the line it replaces that fits with "…", followed by "…", or "…" alone |
| Wrap.GreedyJoin | flight.py:119-127 | the filled lines joined by single spaces equal the words joined by single spaces |
| Wrap.GreedyLinesOk | flight.py:120-126 | every filled line fits the width or is a single word |
| Wrap.WrappedUntruncated | flight.py:119-127 | without truncation the result rejoins to the text's words, and every line fits or is one word |
| Wrap.WrappedTruncated | flight.py:128-134 | the same shape, stated for `wrap_lines` whenever the fill gives more than `max_lines` lines |
| Flight.FileIsFresh | flight.py:82-86 | false for a missing file; otherwise true exactly when `now - mtime <= max_age` |
| Flight.FreshnessMonotone | flight.py:82-86 | a fresh file stays fresh at an earlier time or under a larger allowed age |
| Flight.SelectNearest | flight.py:155-159 | the first element of a non-empty `ac` list; else the answer itself when its `lat` is non-null; else None; raising only when `ac` is truthy but not indexable |
| Flight.First | flight.py:156-157 | `v[0]` on a truthy value: the first element of a list or the first character of a string; an error for anything else |
| Flight.NearestComesFromAnswer | flight.py:155-159 | a selected aircraft is an element of `ac`, or the answer itself with a position |
| Flight.IdField | flight.py:444-447 | succeeds exactly when the answer is a dict and the field is falsy or a string; the value is that string (or "") stripped and upper-cased, so "" for a missing or falsy field |
| Flight.Identify | flight.py:444-447 | succeeds exactly when all four fields can be read, in the order registration, callsign, type, hex; the identity is the four normalised fields, from a dict |
| Flight.IdentityStable | flight.py:444-448 | normalising the identity fields again changes nothing |
| Flight.OrNone | flight.py:483-491 | `s or None`: None exactly for "" |
| Flight.KeyPartOfNormalized | flight.py:483-485 | an identity field logged as `s or None` gives back `s` as a part of the logger's key |
| Flight.StrippedText | flight.py:459-463 | succeeds exactly when the record is a dict and the field is falsy or a string; the value is that string (or "") stripped |
| Flight.AircraftFacts | flight.py:456-463 | readable exactly when there is no record, or its `response` is a dict whose aircraft is falsy or has five readable facts; the facts are those of the aircraft, each stripped, and all empty without a record or an aircraft |
| Flight.Record | flight.py:457-458 | `rec.get("response", {}).get(name)` behind the test on `rec`: null for a falsy record; otherwise readable exactly when the record is a dict whose `response`, when present, is a dict, and then the named payload or null |
| Flight.FactsOf | flight.py:459-463 | readable exactly when the aircraft is a dict and its five fields are falsy or strings; the facts are `type or icao_type`, manufacturer, country, country code and owner, each as `(value or "").strip()` |
| Flight.RouteForLog | flight.py:465-478 | readable exactly when there is no record, or its `response` is a dict whose flight route is falsy or a dict with readable airline, origin and destination; the columns are the airline name, the two IATA codes and the two place names (`name or municipality`) copied as they come, and all null without a route |
| Flight.LogRow | flight.py:480-501 | the logged row has `seen_at` equal to now, every identity field and fact as `s or None`, the route columns as read, and the telemetry copied from `alt_baro`, `gs`, `dst` and `track` |
| Flight.LoggedKey | flight.py:481-491 | the logger's key for that row is the normalised hex, registration and callsign joined by bar separators |
| Flight.IataCode | flight.py:327-328 | succeeds exactly when the place is a dict whose `iata_code` is falsy or a string; the code is that string (or "") upper-cased, so it has no lower-case letter |
| Flight.CardRoute | flight.py:322-333 | readable exactly when there is no record or the flight route is falsy or yields both IATA codes; a route line appears exactly when both codes are non-empty, and it holds the two codes and the two place names, "" when absent |
| Flight.TypeFact | flight.py:371 | the Type fact is the stripped model when that is non-empty, otherwise the type shown |
| Flight.CardFacts | flight.py:370-375 | exactly four facts titled Type, Manufacturer, Country Registered and Registered owner: the Type fact, then the stripped manufacturer, country and owner |
| Flight.OrText | flight.py:511-519 | `s or fallback` |
| Flight.Look | flight.py:436-448 | a failed fetch or a failing selection shows that error; "no aircraft" exactly when the answer was read and holds no truthy aircraft; otherwise the nearest aircraft with its identity, or the error from reading that identity |
| Flight.Fetch | flight.py:450-454 | after a refresh `last_key` is the current key; each lookup is made with its argument when that is non-empty and skipped (null or no photo) when it is empty |
| Flight.Refresh | flight.py:448-454 | afterwards `last_key` is the current key; with the key unchanged the state is kept as it was, otherwise every cache is fetched anew |
| Flight.Enrich | flight.py:456-478 | reading the cached records succeeds exactly when both the aircraft facts and the route columns can be read |
| Flight.CardScreen | flight.py:509-520 | the error screen with the route error exactly when the route cannot be read for the card; otherwise a card with that route line, the cached photo, the four facts, and callsign, type and registration as `s or "Unknown"` and `s or "—"` |
| Flight.Show | flight.py:456-520 | a row is logged exactly when the cached records can be read, and it is `LogRow` of the identity, facts and route read; the card follows it, and an unreadable record shows its error and logs nothing |
| Flight.Poll | flight.py:436-528 | with no aircraft or an unreadable answer the state is kept and nothing is logged, showing the error or the no-aircraft screen; with an aircraft the caches are refreshed for its identity and the row and screen are those of `Show` on the new state |
| Flight.NoAircraftNoChange | flight.py:436-442 | with no aircraft in view, or an unreadable answer, nothing is looked up or logged and the caches stay as they were |
| Flight.RefreshOnlyOnNewKey | flight.py:448-454 | after a cycle `last_key` is the key seen; with an unchanged key the caches and the whole outcome do not depend on the lookups; with a new key every cache is fetched again |
| Flight.SecondPollReusesCache | flight.py:448-454 | polling the same aircraft twice fetches at most once |
| Flight.LoggedRowNormalized | flight.py:444-501 | a logged row comes from an aircraft in view and carries the current time and the normalised identity, with empty fields as null |
| Flight.Poller.Cycle | flight.py:436-528 | one loop iteration leaves the caches, the screen and the table equal to `Poll` followed by `Ingest` of the logged row |
| Flight.Poller.RefreshCaches | flight.py:450-454 | the caches and `last_key` afterwards equal `Refresh` of the old ones |
| WebServer.Matching | web_server.py:151-159 | the selected rows are exactly the table's rows equal on every supplied identifier |
| WebServer.MatchingCountsRows | web_server.py:162-169 | appending a row adds one to the count exactly when the row matches |
| WebServer.Latest | web_server.py:175-205 | `ORDER BY id DESC LIMIT 1` gives a matching row with the largest id |
| WebServer.DetailOf | web_server.py:162-214 | `total_seen` is the number of matching rows; `first_seen` and `last_seen` are the least and greatest `seen_at`, each attained; the columns come from the matching row with the largest id |
| WebServer.FlightDetail | web_server.py:139-216 | None when both identifiers are empty after strip and upper-casing, or when no row matches; otherwise the detail of the matching rows |
| WebServer.DetailFirstSeen | web_server.py:162-172 | the corrected aggregate: the same detail, but `first_seen` is the least `first_seen` of the matching rows |
| WebServer.FlightDetailFirstSeen | web_server.py:139-216 | `get_flight_detail` with the corrected aggregate, None in the same cases |
| WebServer.FirstSeenNoLater | web_server.py:162-172 | the corrected `first_seen` is never later than the one as written |
| WebServer.CoalescedPair | flight_logger.py:118-140 | two sightings 300 s apart under one key form one row that was first seen at 1000 and has `seen_at` 1300 |
| WebServer.FirstSeenReportsLastSighting | web_server.py:162-172 | as written, the detail for N1 reports `first_seen` 1300, the time of the second sighting; corrected, it reports 1000 |
| WebServer.RecentFlights | web_server.py:119-136 | at most `limit` rows, all rows for a negative limit; the newest rows in strictly descending id order; every row left out has a smaller id than every row listed |
| WebServer.TableIdsAscending | web_server.py:128 | the logger's table has increasing ids, which the query's order relies on |
| WebServer.RecentFlightsAfterInsert | web_server.py:119-136 | a newly appended row heads the list, ahead of the list as it was before |
| WebServer.MilEntry | web_server.py:87-105 | a failed request gives its error; otherwise an entry exactly when `response` is a dict and its aircraft is falsy or a dict: `found` false with the hex when there is no aircraft, else `found` true, the hex and the seven copied fields |
| WebServer.MilDetails | web_server.py:70-113 | an empty hex gives `no_hex`; a hit returns the stored entry; a failed lookup gives `lookup_failed`; a successful lookup returns its entry; the cache afterwards is the old one with that entry added under the normalised hex exactly when a new lookup succeeded and was saved, and the old one otherwise |
| WebServer.MilCacheHitIsStable | web_server.py:79-81 | once stored, an entry is returned for any spelling of the hex, whatever the lookup would answer, and the cache stays the same |
| WebServer.MilCacheKeys | web_server.py:75-107 | the cache only gains the stripped, upper-cased hex as a key |
| WebServer.MilCache.Details | web_server.py:70-113 | the data returned and the new cache equal `MilDetails` of the old cache |
| WebServer.Simplify | web_server.py:394-406 | succeeds exactly when the aircraft is a dict whose `flight` is falsy or a string; the entry copies `hex`, `alt_baro`, `squawk`, `category`, `seen`, `rssi`, `t` and `type`, strips `flight`, and takes `lat or rr_lat` and `lon or rr_lon` |
| WebServer.AltKey | web_server.py:410 | the sort key `alt_baro or 0`: 0 for a falsy value, the number itself, 1 for true; no numeric key for any other value |
| Base.MapResult | web_server.py:393-407 | the loop over the feed gives one result per element, each that element's result; an error is the first element's error, every earlier one having succeeded |
| WebServer.Insert | web_server.py:410 | inserting into the sorted list adds exactly that one element |
| WebServer.InsertSorted | web_server.py:410 | insertion keeps the list sorted by non-increasing altitude |
| WebServer.InsertKeepsTies | web_server.py:410 | an inserted aircraft goes ahead of every aircraft already in the list with the same altitude, which is what makes the sort stable when the feed is inserted from its end |
| WebServer.SortDown | web_server.py:410 | the result is a permutation sorted by non-increasing `alt_baro or 0` |
| WebServer.SortDownStable | web_server.py:410 | aircraft with equal altitude keep their feed order |
| WebServer.AircraftList | web_server.py:388 | `data.get("ac", []) or []`: no aircraft when the list is missing or empty, the list itself when it is a list |
| WebServer.MilFeed | web_server.py:384-413 | a failed fetch gives the 502 error |
| WebServer.MilFeedShape | web_server.py:391-411 | one entry per aircraft of the answer, as a permutation of the simplified entries, each with `flight` stripped; with numeric keys, sorted non-increasing by `alt_baro or 0`, with ties in feed order |
| WebServer.ApiMil | web_server.py:384-413 | the loop and the sort return exactly `MilFeed` of the answer |

## Left out

- SQLite plumbing is not modelled: `_connect`, `init_db`, commits and closing connections. The table is a sequence of rows plus the AUTOINCREMENT counter.
- ISO-8601 timestamps are modelled as integer seconds. A malformed `seen_at` string, on which `datetime.fromisoformat` raises, is not representable.
- The network and the file caches are parameters, not operations: `requests.get`, `read_json`, `write_json`, `download_image`, `load_mil_cache`, `save_mil_cache` and the `.none` photo flags. Whether `save_mil_cache` succeeds is a boolean parameter of `WebServer.MilDetails`. A cache file that does not hold a dict is not modelled.
- Drawing is not modelled: PIL, fonts, image rotation, the LCD driver, `draw_header`, `draw_route`, `draw_facts_block`, `draw_loading`, `draw_error` and `autofit_text`. The card is modelled only as the values it shows.
- The web layer is not modelled: Flask routes, the SSE loop, the HTML templates, and `get_stats`, which depends on the local wall clock and time zone.
- Time is not modelled. Clock readings are parameters, and the loop's sleeps and the startup spinner are not modelled.
- Concurrent `log_flight` calls are not modelled; the source has a single writer.
- Telemetry (altitude, speed, distance, heading) is modelled as opaque JSON values that are only copied.
- `hello.py`, `hello_loop.py` and `mil_fetcher.py` are not part of this model.
- Text.Upper: only ASCII letters are upper-cased. Python's `str.upper` also maps non-ASCII letters.
- FlightLogger.FreshestMatch: SQL leaves the order among rows with equal `last_seen` unspecified. The model picks the later row. `FlightLogger.OpenEventUnique` shows the choice never matters while sightings arrive in time order.
- FlightLogger.StepCoherent: that sightings arrive in non-decreasing time order is a precondition, because the source does not enforce it.
- FlightLogger.TableValid: the invariant does not say that each row's `event_key` is derived from its own hex, registration and callsign.
- Wrap.WrapLines: requires `max_lines >= 1`. Every call in flight.py passes 2; for 0 the source raises an IndexError and for negative values its slicing counts from the end, and neither is modelled.
- WebServer.MilFeed: the sort is modelled for numeric `alt_baro` keys, with a bool counting as 0 or 1. With two or more aircraft, any other key is modelled as the TypeError of comparing across types. Sorting a feed whose keys are all strings, which Python would order as text, is not modelled.
- WebServer.MilFeedShape: sortedness and stability are stated only when every key is numeric.
- Flight.Poller.Cycle: an exception from `log_flight` is swallowed by the loop, so the model logs through the total `LogFlight`. Exceptions from drawing other than the route extraction are not modelled.
- WebServer.MilDetails: the branch at web_server.py:111-112 is reached only when saving the cache raises after the entry was put in the in-memory dict. It is modelled as returning the new entry while the cache file keeps its old contents.

## Findings

| source | as written | input that shows it | evidently intended | confidence | as-written member | corrected member |
|---|---|---|---|---|---|---|
| web_server.py:162-172 with flight_logger.py:120-125 | `first_seen` of the flight detail is `MIN(seen_at)`, but every coalescing update overwrites `seen_at` with the newest time, so an event's start is lost | an aircraft registered N1 logged at t = 1000 and again at t = 1300 forms one event; its detail reports `first_seen` 1300 | the time the aircraft was first seen, `MIN(first_seen)`, here 1000 | not executed | WebServer.FirstSeenReportsLastSighting | WebServer.FlightDetailFirstSeen |
