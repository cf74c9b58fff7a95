/** The read side of web_server.py: the flight detail and recent-flights queries
    over the `flights` table, the dictionary cache in front of the adsbdb
    aircraft lookup, and the simplify-and-sort step of the military feed. */
module WebServer {
  import opened Base
  import opened Text
  import opened Json
  import opened FlightLogger

  // ---------------------------------------------------------------------------
  // get_flight_detail

  /** The WHERE clause: equal on every identifier supplied. A NULL column never
      equals a parameter. */
  predicate Matches(e: Event, reg: string, hex: string) {
    (reg != "" ==> e.reg == Some(reg)) && (hex != "" ==> e.hex == Some(hex))
  }

  /** The rows the WHERE clause selects, in table order. */
  function Matching(rows: seq<Event>, reg: string, hex: string): (ms: seq<Event>)
    ensures |ms| <= |rows|
    ensures forall e :: e in ms <==> e in rows && Matches(e, reg, hex)
    ensures ms == [] <==> forall i :: 0 <= i < |rows| ==> !Matches(rows[i], reg, hex)
    ensures (forall i :: 0 <= i < |rows| ==> Matches(rows[i], reg, hex)) ==> ms == rows
    decreases |rows|
  {
    if rows == [] then []
    else
      var ms := Matching(rows[..|rows| - 1], reg, hex);
      var last := rows[|rows| - 1];
      assert rows == rows[..|rows| - 1] + [last];
      if Matches(last, reg, hex) then ms + [last] else ms
  }

  /** Adding a row to the table adds one to the count exactly when the row
      matches: `total_seen` counts rows, whatever their `times_seen`. */
  lemma MatchingCountsRows(rows: seq<Event>, e: Event, reg: string, hex: string)
    ensures |Matching(rows + [e], reg, hex)| == |Matching(rows, reg, hex)| + (if Matches(e, reg, hex) then 1 else 0)
  {
    assert (rows + [e])[..|rows + [e]| - 1] == rows;
  }

  function MinOf(xs: seq<int>): (m: int)
    requires xs != []
    ensures forall i :: 0 <= i < |xs| ==> m <= xs[i]
    ensures exists i :: 0 <= i < |xs| && xs[i] == m
    decreases |xs|
  {
    if |xs| == 1 then xs[0]
    else
      var m := MinOf(xs[1..]);
      assert forall i :: 1 <= i < |xs| ==> xs[i] == xs[1..][i - 1];
      if xs[0] <= m then xs[0] else m
  }

  function MaxOf(xs: seq<int>): (m: int)
    requires xs != []
    ensures forall i :: 0 <= i < |xs| ==> xs[i] <= m
    ensures exists i :: 0 <= i < |xs| && xs[i] == m
    decreases |xs|
  {
    if |xs| == 1 then xs[0]
    else
      var m := MaxOf(xs[1..]);
      assert forall i :: 1 <= i < |xs| ==> xs[i] == xs[1..][i - 1];
      if m <= xs[0] then xs[0] else m
  }

  function SeenAts(rows: seq<Event>): (xs: seq<int>)
    ensures |xs| == |rows| && forall i :: 0 <= i < |rows| ==> xs[i] == rows[i].seenAt
  {
    seq(|rows|, i requires 0 <= i < |rows| => rows[i].seenAt)
  }

  function FirstSeens(rows: seq<Event>): (xs: seq<int>)
    ensures |xs| == |rows| && forall i :: 0 <= i < |rows| ==> xs[i] == rows[i].firstSeen
  {
    seq(|rows|, i requires 0 <= i < |rows| => rows[i].firstSeen)
  }

  /** `ORDER BY id DESC LIMIT 1`: the row with the largest id (the later row on
      a tie, which unique ids rule out). */
  function Latest(rows: seq<Event>): (e: Event)
    requires rows != []
    ensures e in rows
    ensures forall i :: 0 <= i < |rows| ==> rows[i].id <= e.id
    decreases |rows|
  {
    if |rows| == 1 then rows[0]
    else
      var e := Latest(rows[..|rows| - 1]);
      assert forall i :: 0 <= i < |rows| - 1 ==> rows[i] == rows[..|rows| - 1][i];
      if rows[|rows| - 1].id >= e.id then rows[|rows| - 1] else e
  }

  /** The detail dict: the columns of the latest matching row together with the
      aggregate `total_seen`, `first_seen` and `last_seen`. */
  datatype Detail = Detail(latest: Event, totalSeen: nat, firstSeen: int, lastSeen: int)

  /** The two queries of `get_flight_detail` over the matching rows `ms`:
      `COUNT(*)`, `MIN(seen_at)`, `MAX(seen_at)`, and the row with the largest id. */
  function DetailOf(ms: seq<Event>): (d: Detail)
    requires ms != []
    ensures d.totalSeen == |ms|
    ensures d.latest in ms && forall i :: 0 <= i < |ms| ==> ms[i].id <= d.latest.id
    ensures forall i :: 0 <= i < |ms| ==> d.firstSeen <= ms[i].seenAt <= d.lastSeen
    ensures exists i :: 0 <= i < |ms| && ms[i].seenAt == d.firstSeen
    ensures exists i :: 0 <= i < |ms| && ms[i].seenAt == d.lastSeen
  {
    Detail(Latest(ms), |ms|, MinOf(SeenAts(ms)), MaxOf(SeenAts(ms)))
  }

  /** `get_flight_detail(reg, hex_code)` as written: nothing when both
      identifiers are empty once normalised or when no row matches them;
      otherwise the detail of the matching rows. */
  function FlightDetail(rows: seq<Event>, reg: string, hexCode: string): (r: Option<Detail>)
    ensures r.None? <==> (Normalize(reg) == "" && Normalize(hexCode) == "")
                         || (forall i :: 0 <= i < |rows| ==> !Matches(rows[i], Normalize(reg), Normalize(hexCode)))
    ensures r.Some? ==> r.value == DetailOf(Matching(rows, Normalize(reg), Normalize(hexCode)))
  {
    var r := Normalize(reg);
    var h := Normalize(hexCode);
    if r == "" && h == "" then None
    else
      var ms := Matching(rows, r, h);
      if ms == [] then None else Some(DetailOf(ms))
  }

  /** The aggregate with `first_seen` as `MIN(first_seen)`: when the earliest
      matching event began. */
  function DetailFirstSeen(ms: seq<Event>): (d: Detail)
    requires ms != []
    ensures d.(firstSeen := 0) == DetailOf(ms).(firstSeen := 0)
    ensures forall i :: 0 <= i < |ms| ==> d.firstSeen <= ms[i].firstSeen
    ensures exists i :: 0 <= i < |ms| && ms[i].firstSeen == d.firstSeen
  {
    DetailOf(ms).(firstSeen := MinOf(FirstSeens(ms)))
  }

  /** `get_flight_detail` with the corrected `first_seen`. */
  function FlightDetailFirstSeen(rows: seq<Event>, reg: string, hexCode: string): (r: Option<Detail>)
    ensures r.None? <==> FlightDetail(rows, reg, hexCode).None?
    ensures r.Some? ==> r.value == DetailFirstSeen(Matching(rows, Normalize(reg), Normalize(hexCode)))
  {
    var r := Normalize(reg);
    var h := Normalize(hexCode);
    if r == "" && h == "" then None
    else
      var ms := Matching(rows, r, h);
      if ms == [] then None else Some(DetailFirstSeen(ms))
  }

  /** When every row began no later than it was last seen, the corrected
      `first_seen` is never later than the one reported as written. */
  lemma FirstSeenNoLater(ms: seq<Event>)
    requires ms != [] && forall i :: 0 <= i < |ms| ==> ms[i].firstSeen <= ms[i].seenAt
    ensures DetailFirstSeen(ms).firstSeen <= DetailOf(ms).firstSeen
  {
    var i :| 0 <= i < |ms| && ms[i].seenAt == DetailOf(ms).firstSeen;
  }

  /** An aircraft registered N1 seen at t = 1000 and again 300 s later. */
  const SeenOnce: Sighting := Sighting(
    Some(1000), None, Some("N1"), None, None,
    Descriptive(Null, Null, Null, Null, Null, Null, Null, Null, Null, Null),
    Telemetry(Null, Null, Null, Null))

  const SeenAgain: Sighting := SeenOnce.(seenAt := Some(1300))

  lemma StripEmpty()
    ensures Strip("") == ""
  {
    StripStripped("");
  }

  lemma StripN1()
    ensures Strip("") == "" && Strip("N1") == "N1"
  {
    StripEmpty();
    assert IsStripped("N1") by {
      assert "N1"[0] == 'N' && "N1"[1] == '1';
      assert !IsSpace('N') && !IsSpace('1');
    }
    StripStripped("N1");
  }

  lemma NormalizedN1()
    ensures Normalize("N1") == "N1" && Normalize("") == ""
  {
    StripN1();
    assert "N1"[0] == 'N' && "N1"[1] == '1';
    UpperOfUpper("N1");
    assert Upper("") == "";
  }

  lemma KeyOfN1()
    ensures SightingKey(SeenOnce) == "|N1|" && SightingKey(SeenAgain) == "|N1|"
  {
    StripN1();
    assert KeyPart(None) == "" && KeyPart(Some("N1")) == "N1";
  }

  lemma N1NotDegenerate()
    ensures !IsDegenerate("|N1|")
  {
    assert "|N1|"[1] == 'N';
  }

  /** The two `log_flight` calls, with the key spelled out. */
  function Pair(): Table {
    Step(Step(Table([], 1), SeenOnce, "|N1|", 0), SeenAgain, "|N1|", 0)
  }

  lemma PairTable()
    ensures Ingest(Ingest(Table([], 1), SeenOnce, 0), SeenAgain, 0) == Pair()
  {
    KeyOfN1();
    var t1 := Ingest(Table([], 1), SeenOnce, 0);
    assert t1 == Step(Table([], 1), SeenOnce, "|N1|", 0);
  }

  /** Any two sightings 300 s apart under one non-degenerate key make one row
      that began with the first and carries the second's `seen_at`. */
  lemma CoalescedPair(key: string)
    requires !IsDegenerate(key)
    ensures var t := Step(Step(Table([], 1), SeenOnce, key, 0), SeenAgain, key, 0);
      |t.rows| == 1 && t.rows[0].firstSeen == 1000 && t.rows[0].seenAt == 1300 && t.rows[0].reg == Some("N1")
  {
    var t1 := Step(Table([], 1), SeenOnce, key, 0);
    assert t1.rows == [NewEvent(1, SeenOnce, key, 0)];
    assert IsCandidate(t1.rows[0], key, 1300 - WindowSeconds);
  }

  /** As written, the detail page for N1 reports `first_seen` 1300, the time of
      the second sighting, although the aircraft was first seen at 1000; the
      corrected query reports 1000. */
  lemma FirstSeenReportsLastSighting()
    ensures FlightDetail(Pair().rows, "N1", "").Some? && FlightDetail(Pair().rows, "N1", "").value.firstSeen == 1300
    ensures FlightDetailFirstSeen(Pair().rows, "N1", "").value.firstSeen == 1000
  {
    N1NotDegenerate();
    CoalescedPair("|N1|");
    var rows := Pair().rows;
    assert rows == [rows[0]];
    SingleRowDetail(rows[0]);
  }

  /** The detail of a table holding one row registered N1. */
  lemma SingleRowDetail(e: Event)
    requires e.reg == Some("N1")
    ensures FlightDetail([e], "N1", "") == Some(DetailOf([e]))
    ensures FlightDetailFirstSeen([e], "N1", "") == Some(DetailFirstSeen([e]))
    ensures DetailOf([e]).firstSeen == e.seenAt && DetailFirstSeen([e]).firstSeen == e.firstSeen
  {
    NormalizedN1();
    assert Matches(e, "N1", "");
    assert Matching([e], "N1", "") == [e];
  }

  // ---------------------------------------------------------------------------
  // get_recent_flights

  /** The rows of a table, ids strictly increasing in table order. */
  ghost predicate IdsAscending(rows: seq<Event>) {
    forall i, j :: 0 <= i < j < |rows| ==> rows[i].id < rows[j].id
  }

  /** `ORDER BY id DESC LIMIT limit`; SQLite reads a negative limit as no limit.
      The rows left out are exactly the oldest ones. */
  function RecentFlights(rows: seq<Event>, limit: int): (r: seq<Event>)
    requires IdsAscending(rows)
    ensures |r| == if 0 <= limit < |rows| then limit else |rows|
    ensures forall i :: 0 <= i < |r| ==> r[i] == rows[|rows| - 1 - i]
    ensures forall i, j :: 0 <= i < j < |r| ==> r[i].id > r[j].id
    ensures forall i, k :: 0 <= i < |r| && 0 <= k < |rows| - |r| ==> rows[k].id < r[i].id
  {
    var n := if 0 <= limit < |rows| then limit else |rows|;
    seq(n, i requires 0 <= i < n => rows[|rows| - 1 - i])
  }

  lemma TableIdsAscending(t: Table)
    requires TableValid(t)
    ensures IdsAscending(t.rows)
  {
  }

  /** A row appended to the table heads the list, ahead of what the list held
      before, which loses its last entry when the limit is reached. */
  lemma RecentFlightsAfterInsert(rows: seq<Event>, e: Event, limit: int)
    requires IdsAscending(rows + [e]) && limit != 0
    ensures IdsAscending(rows)
    ensures RecentFlights(rows + [e], limit) == [e] + RecentFlights(rows, if limit < 0 then limit else limit - 1)
  {
    var rs := rows + [e];
    assert IdsAscending(rows) by {
      forall i, j | 0 <= i < j < |rows| ensures rows[i].id < rows[j].id {
        assert rows[i] == rs[i] && rows[j] == rs[j];
      }
    }
    var a := RecentFlights(rs, limit);
    var b := RecentFlights(rows, if limit < 0 then limit else limit - 1);
    assert |a| == |b| + 1;
    forall i | 0 <= i < |a| ensures a[i] == ([e] + b)[i] {
      if i > 0 {
        assert a[i] == rs[|rs| - 1 - i] == rows[|rows| - 1 - (i - 1)];
      }
    }
  }

  // ---------------------------------------------------------------------------
  // get_mil_aircraft_details

  const NoHex: Json := Obj(map["error" := Str("no_hex")])

  function LookupFailed(hex: string): Json {
    Obj(map["hex" := Str(hex), "found" := Bool(false), "error" := Str("lookup_failed")])
  }

  /** Lines 87-104: the entry built from an adsbdb answer, or the exception the
      answer raises. */
  function MilEntry(hex: string, answer: Result<Json>): (r: Result<Json>)
    ensures r.Ok? ==> r.value.Obj? && "hex" in r.value.fields && r.value.fields["hex"] == Str(hex)
    ensures answer.Err? ==> r == Err(answer.msg)
    ensures answer.Ok? ==> var ac := Payload(answer.value, "aircraft");
      r.Ok? <==> ReadableResponse(answer.value) && (!Truthy(ac) || ac.Obj?)
    ensures r.Ok? ==> var ac := Payload(answer.value, "aircraft");
      !Truthy(ac) ==> r.value == Obj(map["hex" := Str(hex), "found" := Bool(false)])
    ensures r.Ok? ==> var ac := Payload(answer.value, "aircraft");
      Truthy(ac) ==> r.value == Obj(map[
        "hex" := Str(hex), "found" := Bool(true),
        "type" := Field(ac, "type"), "icao_type" := Field(ac, "icao_type"),
        "manufacturer" := Field(ac, "manufacturer"), "mode_s" := Field(ac, "mode_s"),
        "country_iso" := Field(ac, "registered_owner_country_iso_name"),
        "country_name" := Field(ac, "registered_owner_country_name"),
        "owner" := Field(ac, "registered_owner")])
  {
    var j :- answer;
    var response :- GetOr(j, "response", Obj(map[]));
    var ac :- Get(response, "aircraft");
    if !Truthy(ac) then
      Ok(Obj(map["hex" := Str(hex), "found" := Bool(false)]))
    else
      var ty :- Get(ac, "type");
      var info := Obj(map[
        "hex" := Str(hex),
        "found" := Bool(true),
        "type" := ty,
        "icao_type" := Get(ac, "icao_type").value,
        "manufacturer" := Get(ac, "manufacturer").value,
        "mode_s" := Get(ac, "mode_s").value,
        "country_iso" := Get(ac, "registered_owner_country_iso_name").value,
        "country_name" := Get(ac, "registered_owner_country_name").value,
        "owner" := Get(ac, "registered_owner").value]);
      Ok(info)
  }

  datatype MilLookup = MilLookup(data: Json, cache: map<string, Json>)

  /** The whole of `get_mil_aircraft_details` on the contents of the cache file:
      what it returns and what the file holds afterwards. `saved` says whether
      `save_mil_cache` succeeds; when it fails, the entry is still returned from
      the in-memory dict, but the file keeps its old contents. */
  function MilDetails(cache: map<string, Json>, hexCode: string, answer: Result<Json>, saved: bool): (r: MilLookup)
    ensures Normalize(hexCode) == "" ==> r == MilLookup(NoHex, cache)
    ensures Normalize(hexCode) in cache && Normalize(hexCode) != "" ==> r == MilLookup(cache[Normalize(hexCode)], cache)
    ensures var h := Normalize(hexCode);
      r.cache == if h != "" && h !in cache && MilEntry(h, answer).Ok? && saved then cache[h := r.data] else cache
    ensures Normalize(hexCode) != "" && Normalize(hexCode) !in cache && MilEntry(Normalize(hexCode), answer).Err? ==>
      r == MilLookup(LookupFailed(Normalize(hexCode)), cache)
    ensures Normalize(hexCode) != "" && Normalize(hexCode) !in cache && MilEntry(Normalize(hexCode), answer).Ok? ==>
      r.data == MilEntry(Normalize(hexCode), answer).value
  {
    var hex := Normalize(hexCode);
    if hex == "" then MilLookup(NoHex, cache)
    else if hex in cache then MilLookup(cache[hex], cache)
    else
      match MilEntry(hex, answer)
      case Err(_) => MilLookup(LookupFailed(hex), cache)
      case Ok(data) => MilLookup(data, if saved then cache[hex := data] else cache)
  }

  /** Once an entry is stored, every later request for that hex, in any case
      and with any surrounding whitespace, returns it without a lookup and
      leaves the cache alone, whatever the lookup would have answered. */
  lemma MilCacheHitIsStable(cache: map<string, Json>, hexCode: string, answer: Result<Json>,
                            hexCode': string, answer': Result<Json>, saved': bool)
    requires Normalize(hexCode) != "" && Normalize(hexCode') == Normalize(hexCode)
    requires Normalize(hexCode) in cache || MilEntry(Normalize(hexCode), answer).Ok?
    ensures var first := MilDetails(cache, hexCode, answer, true);
      MilDetails(first.cache, hexCode', answer', saved') == first
  {
    var h := Normalize(hexCode);
    var first := MilDetails(cache, hexCode, answer, true);
    assert h in first.cache && first.cache[h] == first.data;
  }

  /** The cache only ever gains the upper-cased, stripped hex as a key. */
  lemma MilCacheKeys(cache: map<string, Json>, hexCode: string, answer: Result<Json>, saved: bool)
    ensures var r := MilDetails(cache, hexCode, answer, saved);
      forall k :: k in r.cache ==> k in cache || (k == Normalize(hexCode) && Normalized(k))
  {
  }

  /** The contents of `mil_cache.json`, which each call loads and may save. */
  class MilCache {
    var entries: map<string, Json>

    constructor ()
      ensures entries == map[]
    {
      entries := map[];
    }

    method Details(hexCode: string, answer: Result<Json>, saved: bool) returns (data: Json)
      modifies this
      ensures MilLookup(data, entries) == MilDetails(old(entries), hexCode, answer, saved)
    {
      var hex := Normalize(hexCode);
      if hex == "" {
        return NoHex;
      }
      var cache := entries;
      if hex in cache {
        return cache[hex];
      }
      var entry := MilEntry(hex, answer);
      if entry.Err? {
        return LookupFailed(hex);
      }
      data := entry.value;
      cache := cache[hex := data];
      if saved {
        entries := cache;
      }
    }
  }

  // ---------------------------------------------------------------------------
  // api_mil

  /** One aircraft of the simplified military feed. */
  datatype MilAircraft = MilAircraft(
    hex: Json, flight: string, altBaro: Json, squawk: Json, category: Json,
    seen: Json, rssi: Json, t: Json, kind: Json, lat: Json, lon: Json)

  /** Lines 394-406 for one aircraft. */
  function Simplify(ac: Json): (r: Result<MilAircraft>)
    ensures r.Ok? <==> ac.Obj? && Textual(Field(ac, "flight"))
    ensures r.Ok? ==> IsStripped(r.value.flight)
    ensures r.Ok? ==> r.value == MilAircraft(
      Field(ac, "hex"), Strip(StrOf(Field(ac, "flight"))), Field(ac, "alt_baro"), Field(ac, "squawk"),
      Field(ac, "category"), Field(ac, "seen"), Field(ac, "rssi"), Field(ac, "t"), Field(ac, "type"),
      Or(Field(ac, "lat"), Field(ac, "rr_lat")), Or(Field(ac, "lon"), Field(ac, "rr_lon")))
  {
    var hex :- Get(ac, "hex");
    var flight :- TextOf(Get(ac, "flight").value);
    Ok(MilAircraft(
      hex, Strip(flight), Get(ac, "alt_baro").value, Get(ac, "squawk").value, Get(ac, "category").value,
      Get(ac, "seen").value, Get(ac, "rssi").value, Get(ac, "t").value, Get(ac, "type").value,
      Or(Get(ac, "lat").value, Get(ac, "rr_lat").value), Or(Get(ac, "lon").value, Get(ac, "rr_lon").value)))
  }

  /** The sort key `a.get("alt_baro") or 0`, when it is a number (a bool counts
      as 0 or 1 in Python). */
  function AltKey(a: MilAircraft): (r: Option<real>)
    ensures r.Some? <==> !Truthy(a.altBaro) || a.altBaro.Num? || a.altBaro.Bool?
    ensures !Truthy(a.altBaro) ==> r == Some(0.0)
    ensures a.altBaro.Num? ==> r == Some(a.altBaro.n)
    ensures a.altBaro.Bool? ==> r == Some(if a.altBaro.b then 1.0 else 0.0)
  {
    if !Truthy(a.altBaro) then Some(0.0)
    else match a.altBaro
      case Num(n) => Some(n)
      case Bool(_) => Some(1.0)
      case _ => None
  }

  ghost predicate NumericKeys(xs: seq<MilAircraft>) {
    forall i :: 0 <= i < |xs| ==> AltKey(xs[i]).Some?
  }

  function Key(a: MilAircraft): real
    requires AltKey(a).Some?
  {
    AltKey(a).value
  }

  ghost predicate SortedDown(xs: seq<MilAircraft>)
    requires NumericKeys(xs)
  {
    forall i, j :: 0 <= i < j < |xs| ==> Key(xs[j]) <= Key(xs[i])
  }

  /** The aircraft of `xs` whose key is `k`, in order. */
  function WithKey(xs: seq<MilAircraft>, k: real): seq<MilAircraft>
    requires NumericKeys(xs)
  {
    if xs == [] then []
    else (if Key(xs[0]) == k then [xs[0]] else []) + WithKey(xs[1..], k)
  }

  /** Puts `x` in front of the first element whose key is not greater, so that
      `x` stays ahead of the equal keys that followed it. */
  function Insert(x: MilAircraft, xs: seq<MilAircraft>): (r: seq<MilAircraft>)
    requires AltKey(x).Some? && NumericKeys(xs)
    ensures |r| == |xs| + 1
    ensures multiset(r) == multiset(xs) + multiset{x}
    ensures NumericKeys(r)
    decreases |xs|
  {
    if xs == [] || Key(xs[0]) <= Key(x) then [x] + xs
    else
      assert xs == [xs[0]] + xs[1..];
      var rest := Insert(x, xs[1..]);
      var r := [xs[0]] + rest;
      forall i | 0 <= i < |r| ensures AltKey(r[i]).Some? {
        if i > 0 {
          assert r[i] == rest[i - 1];
        }
      }
      r
  }

  /** The tail of a sorted run is sorted and bounded by its head. */
  lemma SortedTail(xs: seq<MilAircraft>)
    requires xs != [] && NumericKeys(xs) && SortedDown(xs)
    ensures NumericKeys(xs[1..]) && SortedDown(xs[1..])
    ensures forall i :: 0 <= i < |xs| - 1 ==> Key(xs[1..][i]) <= Key(xs[0])
  {
    var tail := xs[1..];
    forall i, j | 0 <= i < j < |tail| ensures Key(tail[j]) <= Key(tail[i]) {
      assert tail[i] == xs[i + 1] && tail[j] == xs[j + 1];
    }
  }

  /** Inserting under a bound that `x` and `xs` respect keeps the bound. */
  lemma {:induction false} InsertBelow(x: MilAircraft, xs: seq<MilAircraft>, b: real)
    requires AltKey(x).Some? && NumericKeys(xs) && Key(x) <= b
    requires forall i :: 0 <= i < |xs| ==> Key(xs[i]) <= b
    ensures forall i :: 0 <= i < |xs| + 1 ==> Key(Insert(x, xs)[i]) <= b
    decreases |xs|
  {
    if !(xs == [] || Key(xs[0]) <= Key(x)) {
      InsertBelow(x, xs[1..], b);
      var r := Insert(x, xs);
      assert forall i :: 1 <= i < |r| ==> r[i] == Insert(x, xs[1..])[i - 1];
    }
  }

  lemma {:induction false} InsertSorted(x: MilAircraft, xs: seq<MilAircraft>)
    requires AltKey(x).Some? && NumericKeys(xs) && SortedDown(xs)
    ensures SortedDown(Insert(x, xs))
    decreases |xs|
  {
    var r := Insert(x, xs);
    if xs == [] || Key(xs[0]) <= Key(x) {
      assert forall i :: 1 <= i < |r| ==> r[i] == xs[i - 1];
    } else {
      var tail := xs[1..];
      SortedTail(xs);
      InsertSorted(x, tail);
      InsertBelow(x, tail, Key(xs[0]));
      var rest := Insert(x, tail);
      assert r == [xs[0]] + rest;
      forall i, j | 0 <= i < j < |r| ensures Key(r[j]) <= Key(r[i]) {
        assert r[j] == rest[j - 1];
        if i > 0 {
          assert r[i] == rest[i - 1];
        }
      }
    }
  }

  lemma WithKeyCons(y: MilAircraft, ys: seq<MilAircraft>, k: real)
    requires AltKey(y).Some? && NumericKeys(ys)
    ensures NumericKeys([y] + ys)
    ensures WithKey([y] + ys, k) == (if Key(y) == k then [y] else []) + WithKey(ys, k)
  {
    var r := [y] + ys;
    assert r[0] == y && r[1..] == ys;
    assert forall i :: 1 <= i < |r| ==> r[i] == ys[i - 1];
  }

  lemma {:induction false} InsertKeepsTies(x: MilAircraft, xs: seq<MilAircraft>, k: real)
    requires AltKey(x).Some? && NumericKeys(xs) && SortedDown(xs)
    ensures WithKey(Insert(x, xs), k) == (if Key(x) == k then [x] else []) + WithKey(xs, k)
    decreases |xs|
  {
    if xs == [] || Key(xs[0]) <= Key(x) {
      WithKeyCons(x, xs, k);
    } else {
      var tail := xs[1..];
      assert SortedDown(tail) by {
        forall i, j | 0 <= i < j < |tail| ensures Key(tail[j]) <= Key(tail[i]) {
          assert tail[i] == xs[i + 1] && tail[j] == xs[j + 1];
        }
      }
      InsertKeepsTies(x, tail, k);
      assert xs == [xs[0]] + tail;
      WithKeyCons(xs[0], Insert(x, tail), k);
      WithKeyCons(xs[0], tail, k);
    }
  }

  /** `list.sort(key=..., reverse=True)` on numeric keys: a stable sort into
      non-increasing order. */
  function SortDown(xs: seq<MilAircraft>): (r: seq<MilAircraft>)
    requires NumericKeys(xs)
    ensures NumericKeys(r) && SortedDown(r)
    ensures multiset(r) == multiset(xs)
    ensures |r| == |xs|
    decreases |xs|
  {
    if xs == [] then []
    else
      assert xs == [xs[0]] + xs[1..];
      var rest := SortDown(xs[1..]);
      InsertSorted(xs[0], rest);
      Insert(xs[0], rest)
  }

  /** Aircraft with equal altitude keep their feed order. */
  lemma {:induction false} SortDownStable(xs: seq<MilAircraft>, k: real)
    requires NumericKeys(xs)
    ensures WithKey(SortDown(xs), k) == WithKey(xs, k)
    decreases |xs|
  {
    if xs != [] {
      SortDownStable(xs[1..], k);
      InsertKeepsTies(xs[0], SortDown(xs[1..]), k);
    }
  }

  /** `data.get("ac", []) or []`, iterated: only a list can be iterated into
      dicts; a non-empty dict or string yields keys or characters, whose `.get`
      raises, and a number is not iterable. */
  function AircraftList(data: Json): (r: Result<seq<Json>>)
    ensures r.Ok? ==> data.Obj?
    ensures data.Obj? && ("ac" !in data.fields || !Truthy(data.fields["ac"])) ==> r == Ok([])
    ensures data.Obj? && "ac" in data.fields && data.fields["ac"].Arr? ==> r == Ok(data.fields["ac"].items)
  {
    var acs :- GetOr(data, "ac", Arr([]));
    match Or(acs, Arr([]))
    case Arr(items) => Ok(items)
    case _ => Err("AttributeError: object has no attribute 'get'")
  }

  /** The JSON body of `/api/mil`, or the failure behind its 502 answer. With
      two or more aircraft a non-numeric altitude key (adsb.lol reports
      "ground") makes the sort compare a string with a number, which raises. */
  function MilFeed(answer: Result<Json>): (r: Result<seq<MilAircraft>>)
    ensures answer.Err? ==> r.Err?
  {
    var data :- answer;
    var acs :- AircraftList(data);
    var simplified :- MapResult(Simplify, acs);
    if NumericKeysDecided(simplified) then Ok(SortDown(simplified))
    else if |simplified| < 2 then Ok(simplified)
    else Err("TypeError: '<' not supported between instances")
  }

  predicate NumericKeysDecided(xs: seq<MilAircraft>)
    ensures NumericKeysDecided(xs) <==> NumericKeys(xs)
  {
    forall i :: 0 <= i < |xs| ==> AltKey(xs[i]).Some?
  }

  /** The feed has one entry per aircraft of the answer, each the simplified
      form of one of them with its callsign stripped, ordered by non-increasing
      altitude with ties in feed order. */
  lemma MilFeedShape(data: Json, k: real)
    requires MilFeed(Ok(data)).Ok?
    ensures AircraftList(data).Ok? && MapResult(Simplify, AircraftList(data).value).Ok?
    ensures var acs := AircraftList(data).value;
      var simplified := MapResult(Simplify, acs).value;
      var r := MilFeed(Ok(data)).value;
      && |r| == |acs|
      && multiset(r) == multiset(simplified)
      && (forall i :: 0 <= i < |r| ==> IsStripped(r[i].flight))
      && (NumericKeys(simplified) ==> NumericKeys(r) && SortedDown(r) && WithKey(r, k) == WithKey(simplified, k))
  {
    var simplified := MapResult(Simplify, AircraftList(data).value).value;
    var r := MilFeed(Ok(data)).value;
    if NumericKeys(simplified) {
      SortDownStable(simplified, k);
    }
    SimplifiedStripped(AircraftList(data).value);
    PermutedStripped(r, simplified);
  }

  ghost predicate FlightsStripped(xs: seq<MilAircraft>) {
    forall i :: 0 <= i < |xs| ==> IsStripped(xs[i].flight)
  }

  lemma SimplifiedStripped(acs: seq<Json>)
    requires MapResult(Simplify, acs).Ok?
    ensures FlightsStripped(MapResult(Simplify, acs).value)
  {
    var xs := MapResult(Simplify, acs).value;
    forall i | 0 <= i < |xs| ensures IsStripped(xs[i].flight) {
      assert Simplify(acs[i]) == Ok(xs[i]);
    }
  }

  lemma PermutedStripped(xs: seq<MilAircraft>, ys: seq<MilAircraft>)
    requires multiset(xs) == multiset(ys) && FlightsStripped(ys)
    ensures FlightsStripped(xs)
  {
    forall i | 0 <= i < |xs| ensures IsStripped(xs[i].flight) {
      assert xs[i] in multiset(ys);
      var j :| 0 <= j < |ys| && ys[j] == xs[i];
    }
  }

  /** `api_mil`: the loop building `simplified`, then the sort. */
  method ApiMil(answer: Result<Json>) returns (r: Result<seq<MilAircraft>>)
    ensures r == MilFeed(answer)
  {
    if answer.Err? {
      return Err(answer.msg);
    }
    var list := AircraftList(answer.value);
    if list.Err? {
      return Err(list.msg);
    }
    var acs := list.value;
    var simplified: seq<MilAircraft> := [];
    var i := 0;
    while i < |acs|
      invariant 0 <= i <= |acs|
      invariant MapResult(Simplify, acs[..i]) == Ok(simplified)
    {
      var a := Simplify(acs[i]);
      MapResultSnoc(Simplify, acs, i, simplified);
      if a.Err? {
        return Err(a.msg);
      }
      simplified := simplified + [a.value];
      i := i + 1;
    }
    assert acs[..i] == acs;
    if NumericKeysDecided(simplified) {
      r := Ok(SortDown(simplified));
    } else if |simplified| < 2 {
      r := Ok(simplified);
    } else {
      r := Err("TypeError: '<' not supported between instances");
    }
  }
}
