/** The sighting-to-event coalescer of flight_logger.py.

    The `flights` table is a sequence of rows in insertion order, each with an
    AUTOINCREMENT id; timestamps are whole seconds (the source stores ISO-8601
    strings of one fixed format and compares them as text, which orders them the
    same way). Each poll of the display loop hands `log_flight` one sighting; the
    sighting either extends the freshest event with the same identity key seen
    within the last 20 minutes or becomes a new event row.

    `Ingest` is the specification of one `log_flight` call on a table value;
    `FlightLog.LogFlight` is the imperative operation on the table and is proved
    to agree with it. */
module FlightLogger {
  import opened Base
  import opened Text
  import opened Json

  /** Same hex|reg|callsign within this many minutes is the same event. */
  const EventWindowMinutes: int := 20
  const WindowSeconds: int := EventWindowMinutes * 60

  /** The columns merged with `COALESCE(NULLIF(column, ''), ?)` on an update. */
  datatype Descriptive = Descriptive(
    model: Json, manufacturer: Json, country: Json, countryIso: Json, owner: Json,
    airlineName: Json, originIata: Json, originName: Json, destIata: Json, destName: Json)

  /** The columns overwritten unconditionally on an update. The values are only
      copied, so they stay opaque JSON values (numbers or null in practice). */
  datatype Telemetry = Telemetry(altitudeFt: Json, groundSpeedKt: Json, distanceNm: Json, headingDeg: Json)

  /** The `row` dictionary given to `log_flight`. `seenAt` is None when the key is
      missing or holds an empty string. */
  datatype Sighting = Sighting(
    seenAt: Option<int>,
    hex: Option<string>, reg: Option<string>, callsign: Option<string>, typeCode: Option<string>,
    desc: Descriptive, telem: Telemetry)

  /** One row of the `flights` table. */
  datatype Event = Event(
    id: int, seenAt: int,
    hex: Option<string>, reg: Option<string>, callsign: Option<string>, typeCode: Option<string>,
    desc: Descriptive, telem: Telemetry,
    eventKey: string, firstSeen: int, lastSeen: int, timesSeen: int)

  /** The table's contents together with the AUTOINCREMENT counter: the id the
      next insert receives. */
  datatype Table = Table(rows: seq<Event>, nextId: int)

  // ---------------------------------------------------------------------------
  // Event key

  /** `(row.get(field) or "").strip()`. */
  function KeyPart(v: Option<string>): (r: string)
    ensures IsStripped(r)
    ensures v.None? ==> r == ""
    ensures v.Some? ==> r == Strip(v.value)
  {
    Strip(v.GetOr(""))
  }

  /** `_build_event_key`: "hex|reg|callsign", each part stripped, absent parts
      empty. Removing the two separators leaves nothing exactly when every part
      is empty or made of '|' only. */
  function BuildEventKey(hex: Option<string>, reg: Option<string>, callsign: Option<string>): (k: string)
    ensures |k| == |KeyPart(hex)| + |KeyPart(reg)| + |KeyPart(callsign)| + 2
    ensures k[|KeyPart(hex)|] == '|' && k[|KeyPart(hex)| + 1 + |KeyPart(reg)|] == '|'
    ensures RemoveBars(k) == "" <==> OnlyBars(KeyPart(hex)) && OnlyBars(KeyPart(reg)) && OnlyBars(KeyPart(callsign))
    ensures hex.None? && reg.None? && callsign.None? ==> k == "||"
  {
    RemoveBarsJoin(KeyPart(hex), KeyPart(reg), KeyPart(callsign));
    KeyPart(hex) + "|" + KeyPart(reg) + "|" + KeyPart(callsign)
  }

  /** The key of a sighting, from its hex, registration and callsign. */
  function SightingKey(s: Sighting): (k: string)
    ensures IsDegenerate(k) <==> OnlyBars(KeyPart(s.hex)) && OnlyBars(KeyPart(s.reg)) && OnlyBars(KeyPart(s.callsign))
  {
    BuildEventKey(s.hex, s.reg, s.callsign)
  }

  /** The test `not event_key.replace("|", "")`: nothing identifies the aircraft,
      the key being made of '|' only. */
  function IsDegenerate(key: string): (r: bool)
    ensures r <==> OnlyBars(key)
  {
    RemoveBars(key) == ""
  }

  /** The key identifies the stripped hex, registration and callsign exactly
      (as long as hex and registration hold no '|'), and it depends on nothing else. */
  lemma EventKeyInjective(
    h1: Option<string>, r1: Option<string>, c1: Option<string>,
    h2: Option<string>, r2: Option<string>, c2: Option<string>)
    requires NoBar(KeyPart(h1)) && NoBar(KeyPart(r1)) && NoBar(KeyPart(h2)) && NoBar(KeyPart(r2))
    ensures BuildEventKey(h1, r1, c1) == BuildEventKey(h2, r2, c2)
        <==> KeyPart(h1) == KeyPart(h2) && KeyPart(r1) == KeyPart(r2) && KeyPart(c1) == KeyPart(c2)
  {
    BarJoinInjective(KeyPart(h1), KeyPart(r1), KeyPart(c1), KeyPart(h2), KeyPart(r2), KeyPart(c2));
  }

  /** A key is degenerate exactly when each stripped part is empty or made of '|'
      only; in particular a sighting without hex, registration and callsign. */
  lemma DegenerateKeyIff(hex: Option<string>, reg: Option<string>, callsign: Option<string>)
    ensures IsDegenerate(BuildEventKey(hex, reg, callsign))
        <==> OnlyBars(KeyPart(hex)) && OnlyBars(KeyPart(reg)) && OnlyBars(KeyPart(callsign))
    ensures (hex.None? || hex == Some("")) && (reg.None? || reg == Some("")) && (callsign.None? || callsign == Some(""))
        ==> IsDegenerate(BuildEventKey(hex, reg, callsign))
  {
    RemoveBarsJoin(KeyPart(hex), KeyPart(reg), KeyPart(callsign));
    assert Strip("") == "";
  }

  // ---------------------------------------------------------------------------
  // One log_flight call, as a function on table values

  /** Lines 83-86: a missing or empty `seen_at` becomes the current time and is
      written back into the row. */
  function Stamp(row: Sighting, now: int): (s: Sighting)
    ensures s.seenAt.Some?
    ensures row.seenAt.Some? ==> s == row
    ensures row.seenAt.None? ==> s.seenAt == Some(now)
    ensures s.(seenAt := row.seenAt) == row
  {
    if row.seenAt.None? then row.(seenAt := Some(now)) else row
  }

  /** The WHERE clause of the window query. */
  predicate IsCandidate(e: Event, key: string, cutoff: int) {
    e.eventKey == key && e.lastSeen >= cutoff
  }

  ghost predicate NoCandidate(rows: seq<Event>, key: string, cutoff: int) {
    forall i :: 0 <= i < |rows| ==> !IsCandidate(rows[i], key, cutoff)
  }

  /** `SELECT ... WHERE event_key = ? AND last_seen >= ? ORDER BY last_seen DESC
      LIMIT 1`: the position of a candidate with the greatest `last_seen`, if any
      (SQL leaves ties unordered; here the later row wins). */
  function FreshestMatch(rows: seq<Event>, key: string, cutoff: int): (r: Option<nat>)
    ensures r.None? <==> NoCandidate(rows, key, cutoff)
    ensures r.Some? ==> r.value < |rows| && IsCandidate(rows[r.value], key, cutoff)
    ensures r.Some? ==> forall j :: 0 <= j < |rows| && IsCandidate(rows[j], key, cutoff)
                         ==> rows[j].lastSeen <= rows[r.value].lastSeen
    decreases |rows|
  {
    if rows == [] then None
    else
      var last := |rows| - 1;
      var m := FreshestMatch(rows[..last], key, cutoff);
      assert forall j :: 0 <= j < last ==> rows[..last][j] == rows[j];
      if !IsCandidate(rows[last], key, cutoff) then m
      else if m.Some? && rows[last].lastSeen < rows[m.value].lastSeen then m
      else Some(last)
  }

  /** `NULLIF(column, '') IS NULL`. */
  predicate Blank(v: Json) {
    v == Null || v == Str("")
  }

  /** `COALESCE(NULLIF(stored, ''), incoming)`: a stored value that is neither null
      nor empty is kept; otherwise the incoming value is taken, whatever it is. */
  function Sticky(stored: Json, incoming: Json): (r: Json)
    ensures !Blank(stored) ==> r == stored
    ensures Blank(stored) ==> r == incoming
  {
    if Blank(stored) then incoming else stored
  }

  ghost predicate MergedField(stored: Json, incoming: Json, r: Json) {
    (!Blank(stored) ==> r == stored) && (Blank(stored) ==> r == incoming)
  }

  function MergeDescriptive(stored: Descriptive, incoming: Descriptive): (r: Descriptive)
    ensures MergedField(stored.model, incoming.model, r.model)
    ensures MergedField(stored.manufacturer, incoming.manufacturer, r.manufacturer)
    ensures MergedField(stored.country, incoming.country, r.country)
    ensures MergedField(stored.countryIso, incoming.countryIso, r.countryIso)
    ensures MergedField(stored.owner, incoming.owner, r.owner)
    ensures MergedField(stored.airlineName, incoming.airlineName, r.airlineName)
    ensures MergedField(stored.originIata, incoming.originIata, r.originIata)
    ensures MergedField(stored.originName, incoming.originName, r.originName)
    ensures MergedField(stored.destIata, incoming.destIata, r.destIata)
    ensures MergedField(stored.destName, incoming.destName, r.destName)
  {
    Descriptive(
      Sticky(stored.model, incoming.model),
      Sticky(stored.manufacturer, incoming.manufacturer),
      Sticky(stored.country, incoming.country),
      Sticky(stored.countryIso, incoming.countryIso),
      Sticky(stored.owner, incoming.owner),
      Sticky(stored.airlineName, incoming.airlineName),
      Sticky(stored.originIata, incoming.originIata),
      Sticky(stored.originName, incoming.originName),
      Sticky(stored.destIata, incoming.destIata),
      Sticky(stored.destName, incoming.destName))
  }

  /** The UPDATE of lines 120-162 applied to the matched row. */
  function UpdatedEvent(e: Event, s: Sighting, seenAt: int): (u: Event)
    ensures u.lastSeen == seenAt && u.seenAt == seenAt
    ensures u.timesSeen == e.timesSeen + 1
    ensures u.id == e.id && u.firstSeen == e.firstSeen && u.eventKey == e.eventKey
    ensures u.hex == e.hex && u.reg == e.reg && u.callsign == e.callsign && u.typeCode == e.typeCode
    ensures u.telem == s.telem
    ensures u.desc == MergeDescriptive(e.desc, s.desc)
  {
    e.(seenAt := seenAt, lastSeen := seenAt, timesSeen := e.timesSeen + 1,
       telem := s.telem, desc := MergeDescriptive(e.desc, s.desc))
  }

  /** The row `_insert_new_event` writes (lines 180-235). */
  function NewEvent(id: int, s: Sighting, eventKey: string, now: int): (e: Event)
    ensures e.id == id && e.eventKey == eventKey && e.timesSeen == 1
    ensures e.seenAt == e.firstSeen == e.lastSeen == s.seenAt.GetOr(now)
    ensures e.hex == s.hex && e.reg == s.reg && e.callsign == s.callsign && e.typeCode == s.typeCode
    ensures e.desc == s.desc && e.telem == s.telem
  {
    var seenAt := s.seenAt.GetOr(now);
    Event(id, seenAt, s.hex, s.reg, s.callsign, s.typeCode, s.desc, s.telem, eventKey, seenAt, seenAt, 1)
  }

  function Append(t: Table, e: Event): Table {
    Table(t.rows + [e], t.nextId + 1)
  }

  /** The row a sighting with key `key` and timestamp `seenAt` would update: none
      for a degenerate key, else the freshest candidate in the window. */
  function Matched(rows: seq<Event>, key: string, seenAt: int): (r: Option<nat>)
    ensures r.None? <==> IsDegenerate(key) || NoCandidate(rows, key, seenAt - WindowSeconds)
    ensures r.Some? ==> r.value < |rows| && IsCandidate(rows[r.value], key, seenAt - WindowSeconds)
    ensures r.Some? ==> forall j :: 0 <= j < |rows| && IsCandidate(rows[j], key, seenAt - WindowSeconds)
                         ==> rows[j].lastSeen <= rows[r.value].lastSeen
  {
    if IsDegenerate(key) then None else FreshestMatch(rows, key, seenAt - WindowSeconds)
  }

  /** One call once the sighting is stamped and its key computed: a new row with
      the next id when nothing matches, otherwise the matched row updated in
      place and every other row as it was. */
  function Step(t: Table, s: Sighting, key: string, now: int): (r: Table)
    requires s.seenAt.Some?
    ensures var m := Matched(t.rows, key, s.seenAt.value);
      m.None? ==> r.rows == t.rows + [NewEvent(t.nextId, s, key, now)] && r.nextId == t.nextId + 1
    ensures var m := Matched(t.rows, key, s.seenAt.value);
      m.Some? ==> && |r.rows| == |t.rows| && r.nextId == t.nextId
                  && r.rows[m.value] == UpdatedEvent(t.rows[m.value], s, s.seenAt.value)
                  && forall i :: 0 <= i < |t.rows| && i != m.value ==> r.rows[i] == t.rows[i]
  {
    match Matched(t.rows, key, s.seenAt.value)
    case None => Append(t, NewEvent(t.nextId, s, key, now))
    case Some(m) => Table(t.rows[m := UpdatedEvent(t.rows[m], s, s.seenAt.value)], t.nextId)
  }

  /** The rows of `t` are still in `u`, in place, with their ids and keys, and
      `u` has one extra row for every id handed out since. */
  ghost predicate Extends(t: Table, u: Table) {
    && t.nextId <= u.nextId
    && |u.rows| - |t.rows| == u.nextId - t.nextId
    && forall i :: 0 <= i < |t.rows| ==> u.rows[i].id == t.rows[i].id && u.rows[i].eventKey == t.rows[i].eventKey
  }

  /** The specification of one `log_flight(row)` call made at time `now`: at most
      one row is added, and the rows already there keep their ids and keys. */
  function Ingest(t: Table, row: Sighting, now: int): (r: Table)
    ensures Extends(t, r) && r.nextId <= t.nextId + 1
  {
    var s := Stamp(row, now);
    Step(t, s, SightingKey(s), now)
  }

  /** Stamping does not change the key. */
  lemma StampKeepsKey(row: Sighting, now: int)
    ensures SightingKey(Stamp(row, now)) == SightingKey(row)
  {
    var s := Stamp(row, now);
    assert s.hex == row.hex && s.reg == row.reg && s.callsign == row.callsign;
  }

  /** Consecutive `log_flight` calls, all at clock reading `now` for sightings
      that lack a timestamp. */
  function IngestAll(t: Table, ss: seq<Sighting>, now: int): (r: Table)
    ensures Extends(t, r) && r.nextId <= t.nextId + |ss|
    decreases |ss|
  {
    if ss == [] then t
    else
      var mid := IngestAll(t, ss[..|ss| - 1], now);
      var r := Ingest(mid, ss[|ss| - 1], now);
      ExtendsTrans(t, mid, r);
      r
  }

  lemma ExtendsTrans(t: Table, u: Table, v: Table)
    requires Extends(t, u) && Extends(u, v)
    ensures Extends(t, v)
  {
  }

  // ---------------------------------------------------------------------------
  // The table invariant

  ghost predicate RowValid(e: Event) {
    e.timesSeen >= 1 && e.seenAt == e.lastSeen
  }

  /** Every row keeps `times_seen >= 1` and `seen_at == last_seen`; ids grow with
      insertion order and stay below the AUTOINCREMENT counter. */
  ghost predicate TableValid(t: Table) {
    && t.nextId >= 1
    && (forall i :: 0 <= i < |t.rows| ==> RowValid(t.rows[i]) && 1 <= t.rows[i].id < t.nextId)
    && (forall i, j :: 0 <= i < j < |t.rows| ==> t.rows[i].id < t.rows[j].id)
  }

  lemma StepPreservesValid(t: Table, s: Sighting, key: string, now: int)
    requires TableValid(t) && s.seenAt.Some?
    ensures TableValid(Step(t, s, key, now))
  {
    var r := Step(t, s, key, now);
    match Matched(t.rows, key, s.seenAt.value)
    case None =>
    case Some(m) =>
      assert forall i :: 0 <= i < |r.rows| && i != m ==> r.rows[i] == t.rows[i];
  }

  lemma IngestPreservesValid(t: Table, row: Sighting, now: int)
    requires TableValid(t)
    ensures TableValid(Ingest(t, row, now))
  {
    var s := Stamp(row, now);
    StepPreservesValid(t, s, SightingKey(s), now);
  }

  // ---------------------------------------------------------------------------
  // What one call does

  /** A sighting whose key is degenerate always becomes a new row with
      `times_seen = 1`; it never touches an existing row. */
  lemma DegenerateAlwaysInserts(t: Table, row: Sighting, now: int)
    requires IsDegenerate(SightingKey(row))
    ensures var r := Ingest(t, row, now);
      && r.rows == t.rows + [NewEvent(t.nextId, Stamp(row, now), SightingKey(row), now)]
      && r.rows[|t.rows|].timesSeen == 1
      && r.nextId == t.nextId + 1
  {
    StampKeepsKey(row, now);
  }

  lemma StepCases(t: Table, s: Sighting, key: string, now: int)
    requires s.seenAt.Some?
    ensures var cutoff := s.seenAt.value - WindowSeconds;
      var r := Step(t, s, key, now);
      if !IsDegenerate(key) && !NoCandidate(t.rows, key, cutoff) then
        var m := FreshestMatch(t.rows, key, cutoff).value;
        && IsCandidate(t.rows[m], key, cutoff)
        && (forall j :: 0 <= j < |t.rows| && IsCandidate(t.rows[j], key, cutoff)
              ==> t.rows[j].lastSeen <= t.rows[m].lastSeen)
        && r == Table(t.rows[m := UpdatedEvent(t.rows[m], s, s.seenAt.value)], t.nextId)
      else
        r == Append(t, NewEvent(t.nextId, s, key, now))
  {
  }

  /** A sighting updates a row exactly when its key is not degenerate and some row
      with the same key has `last_seen >= seen_at - 20 min`; the row updated is
      a candidate with the greatest `last_seen`, it is the only row that changes,
      and the counter does not move. Otherwise exactly one row is appended. */
  lemma CoalesceOrInsert(t: Table, row: Sighting, now: int)
    ensures var s := Stamp(row, now);
      var key := SightingKey(row);
      var cutoff := s.seenAt.value - WindowSeconds;
      var r := Ingest(t, row, now);
      if !IsDegenerate(key) && !NoCandidate(t.rows, key, cutoff) then
        var m := FreshestMatch(t.rows, key, cutoff).value;
        && IsCandidate(t.rows[m], key, cutoff)
        && (forall j :: 0 <= j < |t.rows| && IsCandidate(t.rows[j], key, cutoff)
              ==> t.rows[j].lastSeen <= t.rows[m].lastSeen)
        && r == Table(t.rows[m := UpdatedEvent(t.rows[m], s, s.seenAt.value)], t.nextId)
      else
        r == Append(t, NewEvent(t.nextId, s, key, now))
  {
    StampKeepsKey(row, now);
    StepCases(t, Stamp(row, now), SightingKey(row), now);
  }

  /** An inserted row has an id above every existing id, `first_seen = last_seen =
      seen_at`, `times_seen = 1`, every other column copied from the sighting,
      and the rows before it untouched. */
  lemma InsertedRowIsFresh(t: Table, row: Sighting, now: int)
    requires TableValid(t)
    requires |Ingest(t, row, now).rows| != |t.rows|
    ensures var r := Ingest(t, row, now);
      var s := Stamp(row, now);
      var e := r.rows[|t.rows|];
      && |r.rows| == |t.rows| + 1
      && r.rows[..|t.rows|] == t.rows
      && (forall i :: 0 <= i < |t.rows| ==> t.rows[i].id < e.id)
      && e.firstSeen == e.lastSeen == e.seenAt == s.seenAt.value
      && e.timesSeen == 1
      && e.hex == row.hex && e.reg == row.reg && e.callsign == row.callsign && e.typeCode == row.typeCode
      && e.desc == row.desc && e.telem == row.telem
      && e.eventKey == SightingKey(row)
  {
    var s := Stamp(row, now);
    StampKeepsKey(row, now);
    StepCases(t, s, SightingKey(row), now);
    var r := Ingest(t, row, now);
    assert r.rows[..|t.rows|] == t.rows;
  }

  /** The window bound is inclusive: against a row last seen at T, a sighting of
      the same key at T + 20 min extends it, one at T + 20 min + 1 s starts a
      new event. */
  lemma WindowIsInclusive(e: Event, s: Sighting, now: int)
    requires !IsDegenerate(e.eventKey) && SightingKey(s) == e.eventKey
    ensures var t := Table([e], e.id + 1);
      && Ingest(t, s.(seenAt := Some(e.lastSeen + WindowSeconds)), now).rows
           == [UpdatedEvent(e, s.(seenAt := Some(e.lastSeen + WindowSeconds)), e.lastSeen + WindowSeconds)]
      && |Ingest(t, s.(seenAt := Some(e.lastSeen + WindowSeconds + 1)), now).rows| == 2
  {
    var t := Table([e], e.id + 1);
    var s0 := s.(seenAt := Some(e.lastSeen + WindowSeconds));
    var s1 := s.(seenAt := Some(e.lastSeen + WindowSeconds + 1));
    StampKeepsKey(s0, now);
    StampKeepsKey(s1, now);
    assert SightingKey(s0) == SightingKey(s1) == SightingKey(s) by {
      assert s0.hex == s.hex && s0.reg == s.reg && s0.callsign == s.callsign;
      assert s1.hex == s.hex && s1.reg == s.reg && s1.callsign == s.callsign;
    }
    WindowStep(e, s0, now);
    WindowStep(e, s1, now);
  }

  lemma WindowStep(e: Event, s: Sighting, now: int)
    requires s.seenAt.Some? && !IsDegenerate(e.eventKey)
    ensures var t := Table([e], e.id + 1);
      var r := Step(t, s, e.eventKey, now);
      && (s.seenAt.value <= e.lastSeen + WindowSeconds ==> r.rows == [UpdatedEvent(e, s, s.seenAt.value)])
      && (s.seenAt.value > e.lastSeen + WindowSeconds ==> |r.rows| == 2)
  {
    var t := Table([e], e.id + 1);
    var cutoff := s.seenAt.value - WindowSeconds;
    if s.seenAt.value <= e.lastSeen + WindowSeconds {
      assert IsCandidate(t.rows[0], e.eventKey, cutoff);
    } else {
      assert !IsCandidate(t.rows[0], e.eventKey, cutoff);
    }
  }

  // ---------------------------------------------------------------------------
  // Sticky fields over a run of updates

  /** The value a descriptive column holds after the event was inserted with
      `vs[0]` and then updated with `vs[1]`, `vs[2]`, ... */
  function StickyRun(vs: seq<Json>): Json
    requires vs != []
    decreases |vs|
  {
    if |vs| == 1 then vs[0] else Sticky(StickyRun(vs[..|vs| - 1]), vs[|vs| - 1])
  }

  /** First non-empty value wins: once a column holds a non-empty value, no later
      sighting replaces it, neither with an empty value nor with another one. */
  lemma {:induction false} StickyRunFirstNonBlank(vs: seq<Json>, i: nat)
    requires i < |vs| && !Blank(vs[i])
    requires forall j :: 0 <= j < i ==> Blank(vs[j])
    ensures StickyRun(vs) == vs[i]
    decreases |vs|
  {
    if |vs| - 1 > i {
      var p := vs[..|vs| - 1];
      assert p[i] == vs[i];
      assert forall j :: 0 <= j < i ==> p[j] == vs[j];
      StickyRunFirstNonBlank(p, i);
    } else if i > 0 {
      var p := vs[..|vs| - 1];
      assert forall j :: 0 <= j < |p| ==> p[j] == vs[j];
      StickyRunAllBlank(p);
    }
  }

  /** While every value seen is null or empty, the column reflects the latest one. */
  lemma {:induction false} StickyRunAllBlank(vs: seq<Json>)
    requires vs != []
    requires forall j :: 0 <= j < |vs| ==> Blank(vs[j])
    ensures StickyRun(vs) == vs[|vs| - 1]
    decreases |vs|
  {
    if |vs| > 1 {
      var p := vs[..|vs| - 1];
      assert forall j :: 0 <= j < |p| ==> p[j] == vs[j];
      StickyRunAllBlank(p);
    }
  }

  // ---------------------------------------------------------------------------
  // Runs of calls

  ghost predicate AllDegenerate(ss: seq<Sighting>) {
    forall k :: 0 <= k < |ss| ==> IsDegenerate(SightingKey(ss[k]))
  }

  /** `r` is `t` with `n` rows appended, each a first sighting with the next id. */
  ghost predicate AppendedFresh(t: Table, r: Table, n: nat) {
    && |r.rows| == |t.rows| + n
    && r.rows[..|t.rows|] == t.rows
    && r.nextId == t.nextId + n
    && forall k :: |t.rows| <= k < |r.rows| ==> r.rows[k].id == t.nextId + (k - |t.rows|) && r.rows[k].timesSeen == 1
  }

  lemma DegenerateStep(t: Table, mid: Table, s: Sighting, key: string, n: nat, now: int)
    requires s.seenAt.Some? && IsDegenerate(key) && AppendedFresh(t, mid, n)
    ensures AppendedFresh(t, Step(mid, s, key, now), n + 1)
  {
    var r := Step(mid, s, key, now);
    assert r.rows == mid.rows + [NewEvent(mid.nextId, s, key, now)];
    assert r.rows[..|t.rows|] == mid.rows[..|t.rows|];
  }

  /** Sightings whose key is degenerate never merge: N of them, whatever their
      timestamps, append N rows, each with `times_seen = 1` and the next id, and
      leave the rows before them alone. */
  lemma {:induction false} DegenerateNeverMerges(t: Table, ss: seq<Sighting>, now: int)
    requires AllDegenerate(ss)
    ensures AppendedFresh(t, IngestAll(t, ss, now), |ss|)
    decreases |ss|
  {
    if ss == [] {
      assert t.rows[..|t.rows|] == t.rows;
    } else {
      var n := |ss| - 1;
      var p := ss[..n];
      assert AllDegenerate(p) by {
        assert forall k :: 0 <= k < n ==> p[k] == ss[k];
      }
      DegenerateNeverMerges(t, p, now);
      var mid := IngestAll(t, p, now);
      var s := Stamp(ss[n], now);
      var key := SightingKey(s);
      assert IsDegenerate(key) by {
        StampKeepsKey(ss[n], now);
      }
      DegenerateStep(t, mid, s, key, n, now);
    }
  }

  /** Every sighting of `ss` has key `key`. */
  ghost predicate AllKeyed(ss: seq<Sighting>, key: string)
    decreases |ss|
  {
    ss == [] || (AllKeyed(ss[..|ss| - 1], key) && SightingKey(ss[|ss| - 1]) == key)
  }

  /** Timestamped, in order, each within the window of the one before. */
  ghost predicate Paced(ss: seq<Sighting>) {
    && (forall k :: 0 <= k < |ss| ==> ss[k].seenAt.Some?)
    && (forall i, j :: 0 <= i <= j < |ss| ==> ss[i].seenAt.value <= ss[j].seenAt.value)
    && (forall k :: 0 < k < |ss| ==> ss[k].seenAt.value <= ss[k - 1].seenAt.value + WindowSeconds)
  }

  lemma PacedPrefix(ss: seq<Sighting>)
    requires ss != [] && Paced(ss)
    ensures Paced(ss[..|ss| - 1])
  {
    var p := ss[..|ss| - 1];
    assert forall k :: 0 <= k < |p| ==> p[k] == ss[k];
  }

  /** Consecutive calls for sightings that all have key `key`, with the key
      passed in rather than rebuilt. */
  function StepAll(t: Table, ss: seq<Sighting>, key: string, now: int): Table
    decreases |ss|
  {
    if ss == [] then t else Step(StepAll(t, ss[..|ss| - 1], key, now), Stamp(ss[|ss| - 1], now), key, now)
  }

  lemma {:induction false} IngestAllKeyed(t: Table, ss: seq<Sighting>, key: string, now: int)
    requires AllKeyed(ss, key)
    ensures IngestAll(t, ss, now) == StepAll(t, ss, key, now)
    decreases |ss|
  {
    if ss != [] {
      IngestAllKeyed(t, ss[..|ss| - 1], key, now);
      StampKeepsKey(ss[|ss| - 1], now);
    }
  }

  /** `r` is `t` with one event of `key` appended, seen `count` times from
      `first` to `last`. */
  ghost predicate OneOpenEvent(t: Table, r: Table, key: string, count: int, first: int, last: int) {
    && |r.rows| == |t.rows| + 1
    && r.rows[..|t.rows|] == t.rows
    && r.nextId == t.nextId + 1
    && r.rows[|t.rows|].id == t.nextId
    && r.rows[|t.rows|].eventKey == key
    && r.rows[|t.rows|].timesSeen == count
    && r.rows[|t.rows|].firstSeen == first
    && r.rows[|t.rows|].lastSeen == last
  }

  lemma OpenStart(t: Table, s: Sighting, key: string, now: int)
    requires s.seenAt.Some? && NoCandidate(t.rows, key, s.seenAt.value - WindowSeconds)
    ensures OneOpenEvent(t, Step(t, s, key, now), key, 1, s.seenAt.value, s.seenAt.value)
  {
    var r := Step(t, s, key, now);
    assert r.rows[..|t.rows|] == t.rows;
  }

  lemma OpenExtend(t: Table, mid: Table, s: Sighting, key: string, count: int, first: int, last: int, now: int)
    requires s.seenAt.Some? && !IsDegenerate(key)
    requires OneOpenEvent(t, mid, key, count, first, last)
    requires NoCandidate(t.rows, key, first - WindowSeconds)
    requires first <= s.seenAt.value <= last + WindowSeconds
    ensures OneOpenEvent(t, Step(mid, s, key, now), key, count + 1, first, s.seenAt.value)
  {
    var cutoff := s.seenAt.value - WindowSeconds;
    var c := |t.rows|;
    assert IsCandidate(mid.rows[c], key, cutoff);
    forall i | 0 <= i < c ensures !IsCandidate(mid.rows[i], key, cutoff) {
      assert mid.rows[i] == mid.rows[..c][i];
      assert !IsCandidate(t.rows[i], key, first - WindowSeconds);
    }
    var r := Step(mid, s, key, now);
    assert Matched(mid.rows, key, s.seenAt.value) == Some(c);
    assert r.rows[..c] == mid.rows[..c];
  }

  lemma {:induction false} CoalescedSteps(t: Table, ss: seq<Sighting>, key: string, now: int)
    requires ss != [] && Paced(ss) && !IsDegenerate(key)
    requires NoCandidate(t.rows, key, ss[0].seenAt.value - WindowSeconds)
    ensures OneOpenEvent(t, StepAll(t, ss, key, now), key, |ss|, ss[0].seenAt.value, ss[|ss| - 1].seenAt.value)
    decreases |ss|
  {
    var n := |ss| - 1;
    var s := ss[n];
    assert Stamp(s, now) == s;
    if n == 0 {
      assert StepAll(t, ss[..0], key, now) == t;
      OpenStart(t, s, key, now);
    } else {
      var p := ss[..n];
      PacedPrefix(ss);
      CoalescedSteps(t, p, key, now);
      OpenExtend(t, StepAll(t, p, key, now), s, key, n, ss[0].seenAt.value, ss[n - 1].seenAt.value, now);
    }
  }

  /** M timestamped sightings of one non-degenerate key, in order, each within 20
      minutes of the one before, starting when no row of that key is open: they
      form one new event with `times_seen = M`, `first_seen` the first timestamp
      and `last_seen` the last, and the rows before it are left alone. */
  lemma CoalescedRun(t: Table, ss: seq<Sighting>, key: string, now: int)
    requires ss != [] && AllKeyed(ss, key) && Paced(ss) && !IsDegenerate(key)
    requires NoCandidate(t.rows, key, ss[0].seenAt.value - WindowSeconds)
    ensures OneOpenEvent(t, IngestAll(t, ss, now), key, |ss|, ss[0].seenAt.value, ss[|ss| - 1].seenAt.value)
  {
    IngestAllKeyed(t, ss, key, now);
    CoalescedSteps(t, ss, key, now);
  }

  // ---------------------------------------------------------------------------
  // Events of one key are separated by more than the window

  ghost predicate Chronological(rows: seq<Event>) {
    forall i :: 0 <= i < |rows| ==> rows[i].firstSeen <= rows[i].lastSeen
  }

  /** A later event of a key starts more than 20 minutes after an earlier event of
      the same key was last seen. */
  ghost predicate Separated(rows: seq<Event>) {
    forall i, j :: 0 <= i < j < |rows| && rows[i].eventKey == rows[j].eventKey && !IsDegenerate(rows[i].eventKey)
      ==> rows[j].firstSeen - rows[i].lastSeen > WindowSeconds
  }

  ghost predicate Coherent(rows: seq<Event>) {
    Chronological(rows) && Separated(rows)
  }

  /** The precondition the source does not enforce: sightings arrive no earlier
      than anything already logged. */
  ghost predicate ArrivesInOrder(rows: seq<Event>, seenAt: int) {
    forall i :: 0 <= i < |rows| ==> rows[i].lastSeen <= seenAt
  }

  lemma StepCoherent(t: Table, s: Sighting, key: string, now: int)
    requires s.seenAt.Some?
    requires Coherent(t.rows) && ArrivesInOrder(t.rows, s.seenAt.value)
    ensures Coherent(Step(t, s, key, now).rows)
  {
    var seenAt := s.seenAt.value;
    var cutoff := seenAt - WindowSeconds;
    var r := Step(t, s, key, now);
    match Matched(t.rows, key, seenAt)
    case Some(m) =>
      // No later row shares the key: it would be a fresher candidate.
      assert forall j :: m < j < |t.rows| ==> t.rows[j].eventKey != key;
      assert forall i :: 0 <= i < |r.rows| && i != m ==> r.rows[i] == t.rows[i];
    case None =>
      assert r.rows == t.rows + [NewEvent(t.nextId, s, key, now)];
  }

  /** When sightings arrive in time order, every call keeps the events of each
      key more than the window apart. */
  lemma CoherencePreserved(t: Table, row: Sighting, now: int)
    requires Coherent(t.rows)
    requires ArrivesInOrder(t.rows, Stamp(row, now).seenAt.value)
    ensures Coherent(Ingest(t, row, now).rows)
  {
    var s := Stamp(row, now);
    StepCoherent(t, s, SightingKey(s), now);
  }

  /** With the events coherent and nothing logged after `q`, each non-degenerate
      key has at most one event still open at `q`. */
  lemma OpenEventUnique(rows: seq<Event>, q: int, i: nat, j: nat)
    requires Coherent(rows) && ArrivesInOrder(rows, q)
    requires i < |rows| && j < |rows|
    requires rows[i].eventKey == rows[j].eventKey && !IsDegenerate(rows[i].eventKey)
    requires rows[i].lastSeen >= q - WindowSeconds && rows[j].lastSeen >= q - WindowSeconds
    ensures i == j
  {
  }

  // ---------------------------------------------------------------------------
  // The table object

  /** The `flights` table that log_flight writes. */
  class FlightLog {
    var rows: seq<Event>
    var nextId: int

    ghost predicate Valid()
      reads this
    {
      TableValid(Table(rows, nextId))
    }

    function Snapshot(): Table
      reads this
    {
      Table(rows, nextId)
    }

    /** An empty table (first `init_db`); AUTOINCREMENT starts at 1. */
    constructor ()
      ensures Valid() && rows == [] && nextId == 1
    {
      rows := [];
      nextId := 1;
    }

    /** `_insert_new_event(row, event_key)`. */
    method InsertNewEvent(row: Sighting, eventKey: string, now: int)
      requires Valid()
      modifies this
      ensures Valid()
      ensures rows == old(rows) + [NewEvent(old(nextId), row, eventKey, now)]
      ensures nextId == old(nextId) + 1
    {
      var seenAt := if row.seenAt.Some? then row.seenAt.value else now;
      var e := Event(nextId, seenAt, row.hex, row.reg, row.callsign, row.typeCode,
                     row.desc, row.telem, eventKey, seenAt, seenAt, 1);
      rows := rows + [e];
      nextId := nextId + 1;
    }

    /** The part of `log_flight` after the row is stamped and its key built:
        insert for a degenerate key, else look up the freshest row in the window
        and update it in place, or insert when there is none. */
    method MatchOrInsert(stamped: Sighting, eventKey: string, now: int)
      requires Valid() && stamped.seenAt.Some?
      modifies this
      ensures Snapshot() == Step(old(Snapshot()), stamped, eventKey, now)
    {
      ghost var t := Snapshot();
      var seenAt := stamped.seenAt.value;
      if RemoveBars(eventKey) == "" {
        assert Matched(t.rows, eventKey, seenAt).None?;
        InsertNewEvent(stamped, eventKey, now);
        return;
      }
      var cutoff := seenAt - WindowSeconds;
      var found := FreshestMatch(rows, eventKey, cutoff);
      assert Matched(t.rows, eventKey, seenAt) == found;
      if found.Some? {
        var m := found.value;
        rows := rows[m := UpdatedEvent(rows[m], stamped, seenAt)];
        return;
      }
      InsertNewEvent(stamped, eventKey, now);
    }

    /** `log_flight(row)` at time `now`; returns the row as the caller sees it
        afterwards, with `seen_at` filled in. */
    method LogFlight(row: Sighting, now: int) returns (stamped: Sighting)
      requires Valid()
      modifies this
      ensures Valid()
      ensures stamped == Stamp(row, now)
      ensures Snapshot() == Ingest(old(Snapshot()), row, now)
    {
      ghost var before := Snapshot();
      IngestPreservesValid(before, row, now);
      stamped := row;
      if stamped.seenAt.None? {
        stamped := stamped.(seenAt := Some(now));
      }
      var eventKey := BuildEventKey(stamped.hex, stamped.reg, stamped.callsign);
      MatchOrInsert(stamped, eventKey, now);
    }
  }
}
