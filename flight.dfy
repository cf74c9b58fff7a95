/** The display loop of flight.py, less the drawing: choosing the nearest
    aircraft from the ADS-B answer, normalising its identity, re-running the
    aircraft, route and photo lookups only when that identity changes, building
    the row handed to `log_flight`, and extracting what the card shows.

    The network lookups are parameters: the decoded ADS-B answer (or the
    exception that stood in for it), and three functions giving the cached or
    fetched adsbdb aircraft record, adsbdb route record and photo path. */
module Flight {
  import opened Base
  import opened Text
  import opened Json
  import opened FlightLogger

  // ---------------------------------------------------------------------------
  // File freshness

  /** `file_is_fresh`: a missing file is never fresh; otherwise the file is
      fresh when its age is at most `maxAge`. Times are seconds. */
  function FileIsFresh(present: bool, mtime: real, now: real, maxAge: real): (r: bool)
    ensures !present ==> !r
    ensures present ==> (r <==> now - mtime <= maxAge)
  {
    present && now - mtime <= maxAge
  }

  /** A fresh file stays fresh at any earlier time and under any longer maximum age. */
  lemma FreshnessMonotone(mtime: real, now: real, maxAge: real, now': real, maxAge': real)
    requires FileIsFresh(true, mtime, now, maxAge)
    requires now' <= now && maxAge <= maxAge'
    ensures FileIsFresh(true, mtime, now', maxAge')
  {
  }

  // ---------------------------------------------------------------------------
  // fetch_nearest

  /** Python `v[0]` on a truthy value: the first element of a list, the first
      character of a string, an exception for anything else. */
  function First(v: Json): (r: Result<Json>)
    requires Truthy(v)
    ensures v.Arr? ==> r == Ok(v.items[0])
    ensures v.Str? ==> r == Ok(Str([v.s[0]]))
    ensures r.Ok? <==> v.Arr? || v.Str?
  {
    match v
    case Arr(xs) => Ok(xs[0])
    case Str(s) => Ok(Str([s[0]]))
    case Obj(_) => Err("KeyError: 0")
    case _ => Err("TypeError: object is not subscriptable")
  }

  predicate HasAircraftList(data: Json) {
    data.Obj? && "ac" in data.fields && Truthy(data.fields["ac"])
  }

  predicate HasPosition(data: Json) {
    data.Obj? && "lat" in data.fields && data.fields["lat"] != Null
  }

  /** The selection in `fetch_nearest`: the first entry of a non-empty `ac`
      list, else the object itself when it carries a non-null `lat`, else
      nothing. */
  function SelectNearest(data: Json): (r: Result<Option<Json>>)
    ensures HasAircraftList(data) && data.fields["ac"].Arr? ==> r == Ok(Some(data.fields["ac"].items[0]))
    ensures !HasAircraftList(data) && HasPosition(data) ==> r == Ok(Some(data))
    ensures r == Ok(None) <==> !HasAircraftList(data) && !HasPosition(data)
    ensures r.Err? ==> HasAircraftList(data) && !data.fields["ac"].Arr? && !data.fields["ac"].Str?
  {
    if HasAircraftList(data) then
      var first :- First(data.fields["ac"]);
      Ok(Some(first))
    else if HasPosition(data) then
      Ok(Some(data))
    else
      Ok(None)
  }

  /** Whatever `fetch_nearest` selects is an element of the `ac` list or the
      answer itself, never something made up. */
  lemma NearestComesFromAnswer(data: Json)
    requires SelectNearest(data).Ok? && SelectNearest(data).value.Some?
    requires !(HasAircraftList(data) && data.fields["ac"].Str?)
    ensures var x := SelectNearest(data).value.value;
      (HasAircraftList(data) && x in data.fields["ac"].items) || (x == data && HasPosition(data))
  {
  }

  // ---------------------------------------------------------------------------
  // Identity

  /** The identity of the aircraft on screen, each field normalised. */
  datatype Identity = Identity(reg: string, callsign: string, typeCode: string, hex: string)

  /** `last_key`: the triple the lookups depend on. */
  datatype IdKey = IdKey(reg: string, callsign: string, hex: string)

  function KeyOf(id: Identity): IdKey {
    IdKey(id.reg, id.callsign, id.hex)
  }

  /** `(ac.get(name) or "").strip().upper()`. */
  function IdField(ac: Json, name: string): (r: Result<string>)
    ensures r.Ok? <==> ac.Obj? && Textual(Field(ac, name))
    ensures r.Ok? ==> r.value == Normalize(StrOf(Field(ac, name))) && Normalized(r.value)
    ensures ac.Obj? && name in ac.fields && ac.fields[name].Str? ==> r == Ok(Normalize(ac.fields[name].s))
    ensures ac.Obj? && (name !in ac.fields || !Truthy(ac.fields[name])) ==> r == Ok("")
  {
    var v :- Get(ac, name);
    var s :- TextOf(v);
    Ok(Normalize(s))
  }

  /** Lines 444-447, in their order: registration, callsign, type, hex. The
      first field that is neither falsy nor a string raises. */
  function Identify(ac: Json): (r: Result<Identity>)
    ensures r.Ok? <==> IdField(ac, "r").Ok? && IdField(ac, "flight").Ok? && IdField(ac, "t").Ok? && IdField(ac, "hex").Ok?
    ensures r.Ok? ==> r.value == Identity(IdField(ac, "r").value, IdField(ac, "flight").value,
                                          IdField(ac, "t").value, IdField(ac, "hex").value)
    ensures r.Ok? ==> ac.Obj?
    ensures r.Ok? ==> Normalized(r.value.reg) && Normalized(r.value.callsign)
                      && Normalized(r.value.typeCode) && Normalized(r.value.hex)
  {
    var reg :- IdField(ac, "r");
    var callsign :- IdField(ac, "flight");
    var typeCode :- IdField(ac, "t");
    var hex :- IdField(ac, "hex");
    Ok(Identity(reg, callsign, typeCode, hex))
  }

  /** `value or None` for an identity field headed for the log. */
  function OrNone(s: string): (r: Option<string>)
    ensures r.None? <==> s == ""
    ensures r.Some? ==> r.value == s
  {
    if s == "" then None else Some(s)
  }

  /** Normalising an identity field again changes nothing, so a value read back
      from the log and normalised by the web server is the value logged. */
  lemma IdentityStable(ac: Json)
    requires Identify(ac).Ok?
    ensures var id := Identify(ac).value;
      Normalize(id.reg) == id.reg && Normalize(id.callsign) == id.callsign && Normalize(id.hex) == id.hex
  {
    var id := Identify(ac).value;
    StripStripped(id.reg);
    UpperOfUpper(id.reg);
    StripStripped(id.callsign);
    UpperOfUpper(id.callsign);
    StripStripped(id.hex);
    UpperOfUpper(id.hex);
  }

  lemma KeyPartOfNormalized(s: string)
    requires IsStripped(s)
    ensures KeyPart(OrNone(s)) == s
  {
    if s != "" {
      StripStripped(s);
    }
  }

  // ---------------------------------------------------------------------------
  // Enrichment records

  /** What the adsbdb aircraft record contributes (lines 456-463). */
  datatype AircraftInfo = AircraftInfo(model: string, manufacturer: string, country: string, countryIso: string, owner: string)

  const NoAircraftInfo := AircraftInfo("", "", "", "", "")

  /** `(a.get(name) or "").strip()`. */
  function StrippedText(a: Json, name: string): (r: Result<string>)
    ensures r.Ok? <==> a.Obj? && Textual(Field(a, name))
    ensures r.Ok? ==> r.value == Strip(StrOf(Field(a, name))) && IsStripped(r.value)
    ensures a.Obj? && name in a.fields && a.fields[name].Str? ==> r == Ok(Strip(a.fields[name].s))
    ensures a.Obj? && (name !in a.fields || !Truthy(a.fields[name])) ==> r == Ok("")
  {
    var v :- Get(a, name);
    var s :- TextOf(v);
    Ok(Strip(s))
  }

  /** `rec.get("response", {}).get(name)` behind the truthiness test on `rec`
      (lines 457 and 467 for the two cached records, 323 in `draw_card`). */
  function Record(rec: Json, name: string): (r: Result<Json>)
    ensures !Truthy(rec) ==> r == Ok(Null)
    ensures Truthy(rec) ==> (r.Ok? <==> ReadableResponse(rec))
    ensures Truthy(rec) && r.Ok? ==> r.value == Payload(rec, name)
  {
    if !Truthy(rec) then Ok(Null)
    else
      var response :- GetOr(rec, "response", Obj(map[]));
      Get(response, name)
  }

  /** `a.get("type") or a.get("icao_type")`. */
  function ModelField(a: Json): Json {
    Or(Field(a, "type"), Field(a, "icao_type"))
  }

  /** An aircraft record whose five facts can be read and stripped. */
  predicate ReadableFacts(a: Json) {
    && a.Obj? && Textual(ModelField(a)) && Textual(Field(a, "manufacturer"))
    && Textual(Field(a, "registered_owner_country_name"))
    && Textual(Field(a, "registered_owner_country_iso_name")) && Textual(Field(a, "registered_owner"))
  }

  /** Lines 459-463: the facts of a truthy aircraft record, each stripped. */
  function FactsOf(a: Json): (r: Result<AircraftInfo>)
    ensures r.Ok? <==> ReadableFacts(a)
    ensures r.Ok? ==> r.value == AircraftInfo(
      Strip(StrOf(ModelField(a))), Strip(StrOf(Field(a, "manufacturer"))),
      Strip(StrOf(Field(a, "registered_owner_country_name"))),
      Strip(StrOf(Field(a, "registered_owner_country_iso_name"))), Strip(StrOf(Field(a, "registered_owner"))))
  {
    var ty :- Get(a, "type");
    var icao := Get(a, "icao_type").value;
    var model :- TextOf(Or(ty, icao));
    var manufacturer :- StrippedText(a, "manufacturer");
    var country :- StrippedText(a, "registered_owner_country_name");
    var countryIso :- StrippedText(a, "registered_owner_country_iso_name");
    var owner :- StrippedText(a, "registered_owner");
    Ok(AircraftInfo(Strip(model), manufacturer, country, countryIso, owner))
  }

  /** Lines 456-463: the aircraft facts, all stripped; all empty when the
      record is missing or holds no aircraft. */
  function AircraftFacts(cached: Json): (r: Result<AircraftInfo>)
    ensures var a := Payload(cached, "aircraft");
      r.Ok? <==> !Truthy(cached) || (ReadableResponse(cached) && (!Truthy(a) || ReadableFacts(a)))
    ensures var a := Payload(cached, "aircraft");
      r.Ok? ==> r.value == if Truthy(cached) && Truthy(a) then FactsOf(a).value else NoAircraftInfo
    ensures r.Ok? ==> IsStripped(r.value.model) && IsStripped(r.value.manufacturer) && IsStripped(r.value.country)
                      && IsStripped(r.value.countryIso) && IsStripped(r.value.owner)
  {
    var a :- Record(cached, "aircraft");
    if !Truthy(a) then Ok(NoAircraftInfo) else FactsOf(a)
  }

  /** What the adsbdb route record contributes to the log (lines 465-478); the
      values are copied as they come. */
  datatype RouteInfo = RouteInfo(airlineName: Json, originIata: Json, originName: Json, destIata: Json, destName: Json)

  const NoRouteInfo := RouteInfo(Null, Null, Null, Null, Null)

  /** `fr.get(name) or {}`, for a dict `fr`. */
  function Sub(fr: Json, name: string): Json {
    Or(Field(fr, name), Obj(map[]))
  }

  /** `d.get("name") or d.get("municipality")`, for a dict `d`. */
  function PlaceName(d: Json): Json {
    Or(Field(d, "name"), Field(d, "municipality"))
  }

  /** A flight route whose airline, origin and destination can be read with `.get`. */
  predicate ReadableRoute(fr: Json) {
    fr.Obj? && Sub(fr, "airline").Obj? && Sub(fr, "origin").Obj? && Sub(fr, "destination").Obj?
  }

  /** Lines 465-478: the route columns of the row, Null when the record is
      missing or holds no flight route. */
  function RouteForLog(route: Json): (r: Result<RouteInfo>)
    ensures var fr := Payload(route, "flightroute");
      r.Ok? <==> !Truthy(route) || (ReadableResponse(route) && (!Truthy(fr) || ReadableRoute(fr)))
    ensures var fr := Payload(route, "flightroute");
      r.Ok? ==> r.value == if Truthy(route) && Truthy(fr) then
        RouteInfo(Field(Sub(fr, "airline"), "name"),
                  Field(Sub(fr, "origin"), "iata_code"), PlaceName(Sub(fr, "origin")),
                  Field(Sub(fr, "destination"), "iata_code"), PlaceName(Sub(fr, "destination")))
      else NoRouteInfo
  {
    var fr :- Record(route, "flightroute");
    if !Truthy(fr) then Ok(NoRouteInfo)
    else
      var airline :- Get(fr, "airline");
      var airlineName :- Get(Or(airline, Obj(map[])), "name");
      var orig := Sub(fr, "origin");
      var dest := Sub(fr, "destination");
      var originIata :- Get(orig, "iata_code");
      var destIata :- Get(dest, "iata_code");
      Ok(RouteInfo(airlineName, originIata, PlaceName(orig), destIata, PlaceName(dest)))
  }

  // ---------------------------------------------------------------------------
  // The row handed to log_flight

  /** Lines 481-501. The aircraft answer must be a dict, which `Identify`
      succeeding guarantees. Empty facts are logged as null. */
  function LogRow(id: Identity, info: AircraftInfo, route: RouteInfo, ac: Json, now: int): (row: Sighting)
    requires ac.Obj?
    ensures row.seenAt == Some(now)
    ensures row.hex == OrNone(id.hex) && row.reg == OrNone(id.reg)
    ensures row.callsign == OrNone(id.callsign) && row.typeCode == OrNone(id.typeCode)
    ensures (row.desc.model == Null <==> info.model == "") && (info.model != "" ==> row.desc.model == Str(info.model))
    ensures (row.desc.manufacturer == Null <==> info.manufacturer == "")
            && (info.manufacturer != "" ==> row.desc.manufacturer == Str(info.manufacturer))
    ensures (row.desc.country == Null <==> info.country == "") && (info.country != "" ==> row.desc.country == Str(info.country))
    ensures (row.desc.countryIso == Null <==> info.countryIso == "")
            && (info.countryIso != "" ==> row.desc.countryIso == Str(info.countryIso))
    ensures (row.desc.owner == Null <==> info.owner == "") && (info.owner != "" ==> row.desc.owner == Str(info.owner))
    ensures row.desc.airlineName == route.airlineName && row.desc.originIata == route.originIata
            && row.desc.originName == route.originName && row.desc.destIata == route.destIata
            && row.desc.destName == route.destName
    ensures row.telem == Telemetry(Field(ac, "alt_baro"), Field(ac, "gs"), Field(ac, "dst"), Field(ac, "track"))
  {
    Sighting(
      Some(now),
      OrNone(id.hex), OrNone(id.reg), OrNone(id.callsign), OrNone(id.typeCode),
      Descriptive(
        StrOrNull(info.model), StrOrNull(info.manufacturer), StrOrNull(info.country),
        StrOrNull(info.countryIso), StrOrNull(info.owner),
        route.airlineName, route.originIata, route.originName, route.destIata, route.destName),
      Telemetry(
        Get(ac, "alt_baro").value, Get(ac, "gs").value, Get(ac, "dst").value, Get(ac, "track").value))
  }

  /** The event key of a logged row is the normalised hex, registration and
      callsign joined by '|': an empty field is logged as null and keys as "". */
  lemma LoggedKey(id: Identity, info: AircraftInfo, route: RouteInfo, ac: Json, now: int)
    requires ac.Obj? && IsStripped(id.hex) && IsStripped(id.reg) && IsStripped(id.callsign)
    ensures SightingKey(LogRow(id, info, route, ac, now)) == id.hex + "|" + id.reg + "|" + id.callsign
  {
    KeyPartOfNormalized(id.hex);
    KeyPartOfNormalized(id.reg);
    KeyPartOfNormalized(id.callsign);
  }

  // ---------------------------------------------------------------------------
  // The card

  /** The route line of the card: shown only when both IATA codes are non-empty. */
  datatype RouteLine = RouteLine(originIata: string, destIata: string, originName: Json, destName: Json)

  /** `(d.get("iata_code") or "").upper()`. */
  function IataCode(d: Json): (r: Result<string>)
    ensures r.Ok? <==> d.Obj? && Textual(Field(d, "iata_code"))
    ensures r.Ok? ==> r.value == Upper(StrOf(Field(d, "iata_code")))
    ensures d.Obj? && "iata_code" in d.fields && d.fields["iata_code"].Str? ==> r == Ok(Upper(d.fields["iata_code"].s))
    ensures r.Ok? ==> forall k :: 0 <= k < |r.value| ==> !IsLower(r.value[k])
  {
    var v :- Get(d, "iata_code");
    var s :- TextOf(v);
    Ok(Upper(s))
  }

  /** Lines 322-330 of `draw_card`: the route line, present exactly when the
      route record holds a flight route and both IATA codes are non-empty. */
  function CardRoute(route: Json): (r: Result<Option<RouteLine>>)
    ensures var fr := Payload(route, "flightroute");
      var codes := fr.Obj? && IataCode(Sub(fr, "origin")).Ok? && IataCode(Sub(fr, "destination")).Ok?;
      r.Ok? <==> !Truthy(route) || (ReadableResponse(route) && (!Truthy(fr) || codes))
    ensures var fr := Payload(route, "flightroute");
      r.Ok? ==> (r.value.Some? <==> (Truthy(route) && Truthy(fr)
                   && IataCode(Sub(fr, "origin")).value != "" && IataCode(Sub(fr, "destination")).value != ""))
    ensures var fr := Payload(route, "flightroute");
      var orig := Sub(fr, "origin");
      var dest := Sub(fr, "destination");
      r.Ok? && r.value.Some? ==>
        r.value.value == RouteLine(IataCode(orig).value, IataCode(dest).value,
                                   Or(PlaceName(orig), Str("")), Or(PlaceName(dest), Str("")))
    ensures r.Ok? && r.value.Some? ==> r.value.value.originIata != "" && r.value.value.destIata != ""
  {
    var fr :- Record(route, "flightroute");
    if !Truthy(fr) then Ok(None)
    else
      var origin :- Get(fr, "origin");
      var orig := Or(origin, Obj(map[]));
      var dest := Sub(fr, "destination");
      var originIata :- IataCode(orig);
      var destIata :- IataCode(dest);
      if originIata != "" && destIata != "" then
        Ok(Some(RouteLine(originIata, destIata, Or(PlaceName(orig), Str("")), Or(PlaceName(dest), Str("")))))
      else
        Ok(None)
  }

  datatype Fact = Fact(title: string, value: string)

  /** `(model or "").strip() or type_code or ""`. */
  function TypeFact(model: string, typeShown: string): (r: string)
    ensures Strip(model) != "" ==> r == Strip(model)
    ensures Strip(model) == "" ==> r == typeShown
  {
    var m := Strip(model);
    if m != "" then m else typeShown
  }

  /** Lines 370-375: the labelled facts next to the photo. `typeShown` is the
      type code as passed to the card. */
  function CardFacts(info: AircraftInfo, typeShown: string): (facts: seq<Fact>)
    ensures |facts| == 4
    ensures facts[0] == Fact("Type", TypeFact(info.model, typeShown))
    ensures facts[1].title == "Manufacturer" && facts[1].value == Strip(info.manufacturer)
    ensures facts[2].title == "Country Registered" && facts[2].value == Strip(info.country)
    ensures facts[3].title == "Registered owner" && facts[3].value == Strip(info.owner)
  {
    [Fact("Type", TypeFact(info.model, typeShown)),
     Fact("Manufacturer", Strip(info.manufacturer)),
     Fact("Country Registered", Strip(info.country)),
     Fact("Registered owner", Strip(info.owner))]
  }

  /** Python `s or fallback` for strings. */
  function OrText(s: string, fallback: string): (r: string)
    ensures s != "" ==> r == s
    ensures s == "" ==> r == fallback
  {
    if s != "" then s else fallback
  }

  datatype Screen =
    | NoAircraft
    | ErrorScreen(msg: string)
    | Card(callsign: string, typeCode: string, reg: string, route: Option<RouteLine>,
           facts: seq<Fact>, photo: Option<string>)

  // ---------------------------------------------------------------------------
  // One iteration of the loop in main

  /** What the loop sees of the ADS-B answer. */
  datatype Seen = Failed(msg: string) | Nothing | Aircraft(ac: Json, id: Identity)

  /** An aircraft seen is a dict whose identity fields are normalised. */
  ghost predicate WellSeen(seen: Seen) {
    seen.Aircraft? ==>
      seen.ac.Obj? && Normalized(seen.id.reg) && Normalized(seen.id.callsign)
      && Normalized(seen.id.typeCode) && Normalized(seen.id.hex)
  }

  /** Lines 438-448: fetch the nearest aircraft and read its identity. */
  function Look(answer: Result<Json>): (r: Seen)
    ensures answer.Err? ==> r == Failed(answer.msg)
    ensures answer.Ok? && SelectNearest(answer.value).Err? ==> r == Failed(SelectNearest(answer.value).msg)
    ensures r.Aircraft? ==> answer.Ok? && SelectNearest(answer.value) == Ok(Some(r.ac))
                            && Truthy(r.ac) && Identify(r.ac) == Ok(r.id)
    ensures r.Nothing? <==> answer.Ok? && SelectNearest(answer.value).Ok?
                            && (SelectNearest(answer.value).value.None? || !Truthy(SelectNearest(answer.value).value.value))
    ensures r.Failed? <==> answer.Err? || SelectNearest(answer.value).Err?
                           || (var x := SelectNearest(answer.value).value;
                               x.Some? && Truthy(x.value) && Identify(x.value).Err?)
    ensures WellSeen(r)
  {
    match answer
    case Err(m) => Failed(m)
    case Ok(data) =>
      match SelectNearest(data)
      case Err(m) => Failed(m)
      case Ok(nearest) =>
        if nearest.None? || !Truthy(nearest.value) then Nothing
        else
          match Identify(nearest.value)
          case Err(m) => Failed(m)
          case Ok(id) => Aircraft(nearest.value, id)
  }

  /** The state `main` keeps across iterations. */
  datatype PollState = PollState(lastKey: Option<IdKey>, aircraft: Json, route: Json, photo: Option<string>)

  /** The lookups, which stand for the network and file caches. */
  datatype Lookups = Lookups(aircraft: string -> Json, route: string -> Json, photo: string -> Option<string>)

  /** Lines 451-453: each lookup only when its argument is non-empty. */
  function Fetch(id: Identity, look: Lookups): (st: PollState)
    ensures st.lastKey == Some(KeyOf(id))
    ensures id.reg == "" ==> st.aircraft == Null
    ensures id.callsign == "" ==> st.route == Null
    ensures id.hex == "" ==> st.photo == None
    ensures id.reg != "" ==> st.aircraft == look.aircraft(id.reg)
    ensures id.callsign != "" ==> st.route == look.route(id.callsign)
    ensures id.hex != "" ==> st.photo == look.photo(id.hex)
  {
    PollState(
      Some(KeyOf(id)),
      if id.reg != "" then look.aircraft(id.reg) else Null,
      if id.callsign != "" then look.route(id.callsign) else Null,
      if id.hex != "" then look.photo(id.hex) else None)
  }

  /** Lines 450-454: the cached lookups are redone when the key differs. */
  function Refresh(st: PollState, id: Identity, look: Lookups): (r: PollState)
    ensures r.lastKey == Some(KeyOf(id))
    ensures st.lastKey == Some(KeyOf(id)) ==> r == st
    ensures st.lastKey != Some(KeyOf(id)) ==> r == Fetch(id, look)
  {
    if st.lastKey == Some(KeyOf(id)) then st else Fetch(id, look)
  }

  datatype Shown = Shown(logged: Option<Sighting>, screen: Screen)

  /** What the loop reads from the two cached records before logging. */
  datatype Enriched = Enriched(info: AircraftInfo, route: RouteInfo)

  function Enrich(st: PollState): (r: Result<Enriched>)
    ensures r.Ok? <==> AircraftFacts(st.aircraft).Ok? && RouteForLog(st.route).Ok?
    ensures r.Ok? ==> r.value == Enriched(AircraftFacts(st.aircraft).value, RouteForLog(st.route).value)
  {
    var info :- AircraftFacts(st.aircraft);
    var route :- RouteForLog(st.route);
    Ok(Enriched(info, route))
  }

  /** Lines 509-520 and `draw_card`: the card, or the error screen when the
      route record cannot be read for it. Empty identity fields are shown as
      "Unknown" (callsign) or "—". */
  function CardScreen(st: PollState, id: Identity, info: AircraftInfo): (s: Screen)
    ensures s.Card? || (s.ErrorScreen? && CardRoute(st.route).Err?)
    ensures s.Card? ==> s.photo == st.photo && s.facts == CardFacts(info, s.typeCode)
    ensures s.Card? ==> s.callsign != "" && s.typeCode != "" && s.reg != ""
    ensures s.Card? ==> (id.callsign != "" ==> s.callsign == id.callsign) && (id.reg != "" ==> s.reg == id.reg)
    ensures CardRoute(st.route).Err? ==> s == ErrorScreen(CardRoute(st.route).msg)
    ensures CardRoute(st.route).Ok? ==>
      && s.Card? && s.route == CardRoute(st.route).value
      && s.callsign == OrText(id.callsign, "Unknown") && s.typeCode == OrText(id.typeCode, "—")
      && s.reg == OrText(id.reg, "—")
  {
    match CardRoute(st.route)
    case Err(m) => ErrorScreen(m)
    case Ok(line) =>
      var typeShown := OrText(id.typeCode, "—");
      Card(OrText(id.callsign, "Unknown"), typeShown, OrText(id.reg, "—"), line, CardFacts(info, typeShown), st.photo)
  }

  /** Lines 456-520 for an aircraft in view, once the caches are refreshed: an
      exception while reading the caches shows the error and logs nothing;
      otherwise the row is logged, and then the card drawn, or the error shown
      when the route cannot be read for the card. */
  function Show(st: PollState, ac: Json, id: Identity, now: int): (r: Shown)
    requires ac.Obj?
    ensures r.logged.Some? ==>
      && r.logged.value.seenAt == Some(now)
      && r.logged.value.hex == OrNone(id.hex) && r.logged.value.reg == OrNone(id.reg)
      && r.logged.value.callsign == OrNone(id.callsign) && r.logged.value.typeCode == OrNone(id.typeCode)
    ensures r.logged.None? <==> Enrich(st).Err?
    ensures r.logged.Some? ==> r.logged.value == LogRow(id, Enrich(st).value.info, Enrich(st).value.route, ac, now)
    ensures r.logged.Some? ==> r.screen == CardScreen(st, id, Enrich(st).value.info)
    ensures Enrich(st).Err? ==> r.screen == ErrorScreen(Enrich(st).msg)
    ensures r.screen.Card? ==> r.logged.Some?
    ensures r.screen.Card? || r.screen.ErrorScreen?
  {
    match Enrich(st)
    case Err(m) => Shown(None, ErrorScreen(m))
    case Ok(e) => Shown(Some(LogRow(id, e.info, e.route, ac, now)), CardScreen(st, id, e.info))
  }

  datatype Outcome = Outcome(state: PollState, logged: Option<Sighting>, screen: Screen)

  /** One iteration of the loop: new state, the row logged if any, the screen. */
  function Poll(st: PollState, seen: Seen, look: Lookups, now: int): (r: Outcome)
    requires WellSeen(seen)
    ensures !seen.Aircraft? ==> r.state == st && r.logged.None?
    ensures seen.Failed? ==> r.screen == ErrorScreen(seen.msg)
    ensures seen.Nothing? ==> r.screen == NoAircraft
    ensures seen.Aircraft? ==> r.state == Refresh(st, seen.id, look) && r.state.lastKey == Some(KeyOf(seen.id))
    ensures seen.Aircraft? ==> var shown := Show(r.state, seen.ac, seen.id, now);
      r.logged == shown.logged && r.screen == shown.screen
  {
    match seen
    case Failed(m) => Outcome(st, None, ErrorScreen(m))
    case Nothing => Outcome(st, None, NoAircraft)
    case Aircraft(ac, id) =>
      var st' := Refresh(st, id, look);
      var shown := Show(st', ac, id, now);
      Outcome(st', shown.logged, shown.screen)
  }

  /** With no aircraft in view, or when the answer cannot be read, nothing is
      looked up, nothing is logged and the caches stay as they were. */
  lemma NoAircraftNoChange(st: PollState, seen: Seen, look: Lookups, now: int)
    requires WellSeen(seen) && !seen.Aircraft?
    ensures Poll(st, seen, look, now) == Outcome(st, None, if seen.Nothing? then NoAircraft else ErrorScreen(seen.msg))
  {
  }

  /** After a cycle that sees an aircraft, `last_key` is its key. When the key
      is the previous one, the caches are reused untouched and the outcome does
      not depend on the lookups at all; otherwise every cache is re-fetched. */
  lemma RefreshOnlyOnNewKey(st: PollState, seen: Seen, look: Lookups, look': Lookups, now: int)
    requires WellSeen(seen) && seen.Aircraft?
    ensures Poll(st, seen, look, now).state.lastKey == Some(KeyOf(seen.id))
    ensures st.lastKey == Some(KeyOf(seen.id)) ==>
      Poll(st, seen, look, now).state == st && Poll(st, seen, look, now) == Poll(st, seen, look', now)
    ensures st.lastKey != Some(KeyOf(seen.id)) ==> Poll(st, seen, look, now).state == Fetch(seen.id, look)
  {
  }

  /** Polling the same aircraft twice runs the lookups at most once: the second
      cycle finds the key the first left behind. */
  lemma SecondPollReusesCache(st: PollState, seen: Seen, look: Lookups, look': Lookups, now: int, later: int)
    requires WellSeen(seen) && seen.Aircraft?
    ensures Poll(Poll(st, seen, look, now).state, seen, look', later).state == Poll(st, seen, look, now).state
  {
    RefreshOnlyOnNewKey(Poll(st, seen, look, now).state, seen, look', look', later);
  }

  /** The logged row carries the current time and the normalised identity, with
      every empty identity field as null; nothing is logged without an aircraft. */
  lemma LoggedRowNormalized(st: PollState, seen: Seen, look: Lookups, now: int)
    requires WellSeen(seen) && Poll(st, seen, look, now).logged.Some?
    ensures seen.Aircraft?
    ensures var row := Poll(st, seen, look, now).logged.value;
      && row.seenAt == Some(now)
      && row.hex == OrNone(seen.id.hex) && row.reg == OrNone(seen.id.reg)
      && row.callsign == OrNone(seen.id.callsign) && row.typeCode == OrNone(seen.id.typeCode)
      && Normalized(seen.id.hex) && Normalized(seen.id.reg)
      && Normalized(seen.id.callsign) && Normalized(seen.id.typeCode)
  {
  }

  /** The loop's variables `last_key`, `cached_aircraft`, `cached_route` and
      `cached_photo_path`. */
  class Poller {
    var lastKey: Option<IdKey>
    var cachedAircraft: Json
    var cachedRoute: Json
    var cachedPhoto: Option<string>

    function State(): PollState
      reads this
    {
      PollState(lastKey, cachedAircraft, cachedRoute, cachedPhoto)
    }

    constructor ()
      ensures State() == PollState(None, Null, Null, None)
    {
      lastKey := None;
      cachedAircraft := Null;
      cachedRoute := Null;
      cachedPhoto := None;
    }

    /** One pass of the `while True` body: select and identify the nearest
        aircraft, refresh the caches on a new key, then log the sighting (the
        loop ignores the logger's exceptions) and show the card or the error. */
    method Cycle(answer: Result<Json>, look: Lookups, log: FlightLog, now: int) returns (screen: Screen)
      requires log.Valid()
      modifies this, log
      ensures log.Valid()
      ensures var o := Poll(old(State()), Look(answer), look, now);
        && State() == o.state
        && screen == o.screen
        && log.Snapshot() == if o.logged.Some? then Ingest(old(log.Snapshot()), o.logged.value, now) else old(log.Snapshot())
    {
      var seen := Look(answer);
      if seen.Failed? {
        return ErrorScreen(seen.msg);
      }
      if seen.Nothing? {
        return NoAircraft;
      }
      RefreshCaches(seen.id, look);
      var shown := Show(State(), seen.ac, seen.id, now);
      if shown.logged.Some? {
        var _ := log.LogFlight(shown.logged.value, now);
      }
      screen := shown.screen;
    }

    /** Lines 450-454: `last_key` and the three caches, redone on a new key. */
    method RefreshCaches(id: Identity, look: Lookups)
      modifies this
      ensures State() == Refresh(old(State()), id, look)
    {
      var key := KeyOf(id);
      if Some(key) != lastKey {
        cachedAircraft := if id.reg != "" then look.aircraft(id.reg) else Null;
        cachedRoute := if id.callsign != "" then look.route(id.callsign) else Null;
        cachedPhoto := if id.hex != "" then look.photo(id.hex) else None;
        lastKey := Some(key);
      }
    }
  }
}
