/** The nearest-flight endpoint: input validation, a single linear arg-min
    scan over the upstream flight list, and the mapping of the chosen entry to
    the canonical flight record. The great-circle distance and `parseFloat`
    are parameters of the model (uninterpreted functions); the clock is the
    explicit parameter `nowMs`. */
module NearestFlight {
  import opened Js

  /** ICAO airline code -> airline name. The table in the source lists 'BAW'
      twice with the same name; a map holds it once. */
  const AirlineNames: map<string, string> := map[
    "AAL" := "American Airlines",
    "UAL" := "United Airlines",
    "DAL" := "Delta Air Lines",
    "SWA" := "Southwest Airlines",
    "JBU" := "JetBlue Airways",
    "ASA" := "Alaska Airlines",
    "SKW" := "SkyWest Airlines",
    "FFT" := "Frontier Airlines",
    "NKS" := "Spirit Airlines",
    "BAW" := "British Airways",
    "AFR" := "Air France",
    "DLH" := "Lufthansa",
    "KLM" := "KLM Royal Dutch Airlines",
    "UAE" := "Emirates",
    "QTR" := "Qatar Airways",
    "SIA" := "Singapore Airlines",
    "ANA" := "All Nippon Airways",
    "JAL" := "Japan Airlines",
    "CPA" := "Cathay Pacific",
    "QFA" := "Qantas",
    "ACA" := "Air Canada",
    "IBE" := "Iberia",
    "SAS" := "Scandinavian Airlines",
    "TAP" := "TAP Air Portugal",
    "THY" := "Turkish Airlines",
    "AAR" := "Asiana Airlines",
    "CCA" := "Air China",
    "CSN" := "China Southern Airlines",
    "CES" := "China Eastern Airlines"
  ]

  /** One entry of the upstream `response` array. Fields that are absent or
      `null` in the JSON are `None`. */
  datatype RawFlight = RawFlight(
    hex: Option<string>,
    regNumber: Option<string>,
    flightIcao: Option<string>,
    flightIata: Option<string>,
    flag: Option<string>,
    lat: Option<real>,
    lng: Option<real>,
    alt: Option<real>,
    speed: Option<real>,
    dir: Option<real>,
    vSpeed: Option<real>,
    status: Option<string>,
    depIata: Option<string>,
    depIcao: Option<string>,
    arrIata: Option<string>,
    arrIcao: Option<string>,
    airlineIcao: Option<string>,
    airlineIata: Option<string>,
    aircraftIcao: Option<string>)

  /** The canonical flight record the endpoint answers with. */
  datatype Flight = Flight(
    icao24: string,
    callsign: string,
    originCountry: string,
    longitude: real,
    latitude: real,
    baroAltitude: real,
    geoAltitude: real,
    velocity: real,
    trueTrack: real,
    verticalRate: real,
    onGround: bool,
    lastContact: int,
    distance: real,
    registration: Option<string>,
    departure: string,
    arrival: string,
    airline: string,
    aircraft: string)

  /** `getDistance(lat1, lon1, lat2, lon2)`, in kilometres. */
  type DistanceFn = (real, real, real, real) -> real

  /** The scan's guard `flight.lat && flight.lng`: both coordinates truthy, so an
      entry at latitude 0 or longitude 0 is skipped like one without a position. */
  predicate HasPosition(f: RawFlight) {
    NumTruthy(f.lat) && NumTruthy(f.lng)
  }

  /** The distance from the query point to a positioned entry. */
  function DistanceTo(f: RawFlight, latitude: real, longitude: real, getDistance: DistanceFn): real
    requires HasPosition(f)
  {
    getDistance(latitude, longitude, f.lat.value, f.lng.value)
  }

  /** Entry `i` is the nearest positioned entry among the first `n`, and the first
      one at that distance. */
  predicate IsFirstNearestIn(flights: seq<RawFlight>, latitude: real, longitude: real, getDistance: DistanceFn, i: int, n: int)
    requires n <= |flights|
  {
    && 0 <= i < n
    && HasPosition(flights[i])
    && (forall j | 0 <= j < n && HasPosition(flights[j]) ::
          DistanceTo(flights[i], latitude, longitude, getDistance) <= DistanceTo(flights[j], latitude, longitude, getDistance))
    && (forall j | 0 <= j < i && HasPosition(flights[j]) ::
          DistanceTo(flights[j], latitude, longitude, getDistance) > DistanceTo(flights[i], latitude, longitude, getDistance))
  }

  /** Entry `i` is the nearest positioned entry of the whole list, first in input order among equals. */
  predicate IsFirstNearest(flights: seq<RawFlight>, latitude: real, longitude: real, getDistance: DistanceFn, i: int) {
    IsFirstNearestIn(flights, latitude, longitude, getDistance, i, |flights|)
  }

  /** The first-nearest entry is unique: the tie-break leaves no choice. */
  lemma FirstNearestUnique(flights: seq<RawFlight>, latitude: real, longitude: real, getDistance: DistanceFn, i: int, j: int)
    requires IsFirstNearest(flights, latitude, longitude, getDistance, i)
    requires IsFirstNearest(flights, latitude, longitude, getDistance, j)
    ensures i == j
  {
  }

  /** `Math.round(x * 100) / 100`: `Math.round` rounds halves up. */
  function Round2(x: real): (r: real)
    ensures x - 0.005 < r <= x + 0.005
    ensures (r * 100.0).Floor as real == r * 100.0
  {
    ((x * 100.0 + 0.5).Floor as real) / 100.0
  }

  /** `airline_icao || airline_iata || 'Unknown'`. */
  function AirlineCode(f: RawFlight): (code: string)
    ensures Truthy(f.airlineIcao) ==> code == f.airlineIcao.value
    ensures !Truthy(f.airlineIcao) && Truthy(f.airlineIata) ==> code == f.airlineIata.value
    ensures !Truthy(f.airlineIcao) && !Truthy(f.airlineIata) ==> code == "Unknown"
  {
    OrElse(Or(f.airlineIcao, f.airlineIata), "Unknown")
  }

  /** `airlineNames[code.toUpperCase()] || code`: a known code, in any case, names
      its airline; any other code is passed through unchanged. */
  function AirlineName(code: string): (name: string)
    ensures AsciiUpper(code) in AirlineNames ==> name == AirlineNames[AsciiUpper(code)]
    ensures AsciiUpper(code) !in AirlineNames ==> name == code
  {
    var key := AsciiUpper(code);
    if key in AirlineNames then AirlineNames[key] else code
  }

  /** The canonical record for a positioned entry at `distance` kilometres, at clock `nowMs`. */
  function ToCanonical(f: RawFlight, distance: real, nowMs: int): (r: Flight)
    requires HasPosition(f)
    ensures r.latitude == f.lat.value && r.longitude == f.lng.value
    ensures r.icao24 != "" && r.callsign != "" && r.originCountry != ""
    ensures r.departure != "" && r.arrival != "" && r.airline != "" && r.aircraft != ""
    ensures r.registration.Some? <==> Truthy(f.regNumber)
    ensures r.registration.Some? ==> r.registration == f.regNumber
    ensures Truthy(f.hex) ==> r.icao24 == f.hex.value
    ensures !Truthy(f.hex) && Truthy(f.regNumber) ==> r.icao24 == f.regNumber.value
    ensures !Truthy(f.hex) && !Truthy(f.regNumber) ==> r.icao24 == "unknown"
    ensures Truthy(f.flightIcao) ==> r.callsign == f.flightIcao.value
    ensures !Truthy(f.flightIcao) && Truthy(f.flightIata) ==> r.callsign == f.flightIata.value
    ensures !Truthy(f.flightIcao) && !Truthy(f.flightIata) ==> r.callsign == "Unknown"
    ensures Truthy(f.flag) ==> r.originCountry == f.flag.value
    ensures !Truthy(f.flag) ==> r.originCountry == "Unknown"
    ensures Truthy(f.depIata) ==> r.departure == f.depIata.value
    ensures !Truthy(f.depIata) && Truthy(f.depIcao) ==> r.departure == f.depIcao.value
    ensures !Truthy(f.depIata) && !Truthy(f.depIcao) ==> r.departure == "Unknown"
    ensures Truthy(f.arrIata) ==> r.arrival == f.arrIata.value
    ensures !Truthy(f.arrIata) && Truthy(f.arrIcao) ==> r.arrival == f.arrIcao.value
    ensures !Truthy(f.arrIata) && !Truthy(f.arrIcao) ==> r.arrival == "Unknown"
    ensures Truthy(f.aircraftIcao) ==> r.aircraft == f.aircraftIcao.value
    ensures !Truthy(f.aircraftIcao) ==> r.aircraft == "Unknown"
    ensures r.airline == AirlineName(AirlineCode(f))
    ensures r.baroAltitude == r.geoAltitude == (if f.alt.Some? then f.alt.value else 0.0)
    ensures r.velocity == (if f.speed.Some? then f.speed.value else 0.0)
    ensures r.trueTrack == (if f.dir.Some? then f.dir.value else 0.0)
    ensures r.verticalRate == (if f.vSpeed.Some? then f.vSpeed.value else 0.0)
    ensures r.onGround <==> f.status != Some("en-route")
    ensures r.distance == Round2(distance) && distance - 0.005 < r.distance <= distance + 0.005
    ensures r.lastContact * 1000 <= nowMs < r.lastContact * 1000 + 1000
  {
    Flight(
      icao24 := OrElse(Or(f.hex, f.regNumber), "unknown"),
      callsign := OrElse(Or(f.flightIcao, f.flightIata), "Unknown"),
      originCountry := OrElse(f.flag, "Unknown"),
      longitude := f.lng.value,
      latitude := f.lat.value,
      baroAltitude := NumOrZero(f.alt),
      geoAltitude := NumOrZero(f.alt),
      velocity := NumOrZero(f.speed),
      trueTrack := NumOrZero(f.dir),
      verticalRate := NumOrZero(f.vSpeed),
      onGround := f.status != Some("en-route"),
      lastContact := nowMs / 1000,
      distance := Round2(distance),
      registration := OrNull(f.regNumber),
      departure := OrElse(Or(f.depIata, f.depIcao), "Unknown"),
      arrival := OrElse(Or(f.arrIata, f.arrIcao), "Unknown"),
      airline := AirlineName(AirlineCode(f)),
      aircraft := OrElse(f.aircraftIcao, "Unknown"))
  }

  /** The `forEach` scan: keeps the positioned entry with strictly smaller
      distance than the best so far (`minDistance` starts at Infinity, here
      `None`) and builds its record. */
  method FindNearest(flights: seq<RawFlight>, latitude: real, longitude: real, getDistance: DistanceFn, nowMs: int)
    returns (nearest: Option<Flight>, ghost index: int)
    ensures nearest.None? <==> forall j | 0 <= j < |flights| :: !HasPosition(flights[j])
    ensures nearest.Some? ==>
              && IsFirstNearest(flights, latitude, longitude, getDistance, index)
              && nearest.value == ToCanonical(flights[index], DistanceTo(flights[index], latitude, longitude, getDistance), nowMs)
    ensures forall i | IsFirstNearest(flights, latitude, longitude, getDistance, i) :: nearest.Some? && index == i
  {
    nearest, index := None, -1;
    var minDistance: Option<real> := None;
    for i := 0 to |flights|
      invariant minDistance.None? <==> nearest.None?
      invariant nearest.None? <==> forall j | 0 <= j < i :: !HasPosition(flights[j])
      invariant nearest.Some? ==>
                  && IsFirstNearestIn(flights, latitude, longitude, getDistance, index, i)
                  && minDistance == Some(DistanceTo(flights[index], latitude, longitude, getDistance))
                  && nearest.value == ToCanonical(flights[index], minDistance.value, nowMs)
    {
      var flight := flights[i];
      if NumTruthy(flight.lat) && NumTruthy(flight.lng) {
        var distance := getDistance(latitude, longitude, flight.lat.value, flight.lng.value);
        if minDistance.None? || distance < minDistance.value {
          minDistance := Some(distance);
          nearest := Some(ToCanonical(flight, distance, nowMs));
          index := i;
        }
      }
    }
    forall i | IsFirstNearest(flights, latitude, longitude, getDistance, i)
      ensures nearest.Some? && index == i
    {
      if nearest.Some? {
        FirstNearestUnique(flights, latitude, longitude, getDistance, index, i);
      }
    }
  }

  /** What the upstream flight list request produced. */
  datatype Upstream =
    | NotOk(status: int)                          // a non-2xx response
    | Threw                                       // fetch or JSON parsing threw
    | Payload(response: Option<seq<RawFlight>>)   // the parsed body's `response` field

  /** Why the upstream request failed, as reported in the 500 body. */
  datatype FailureReason = ApiError(status: int) | Exception

  /** The endpoint's answers. */
  datatype Reply =
    | MissingCoordinates              // 400 'Latitude and longitude are required'
    | NotConfigured                   // 503 'Flight tracking service not configured'
    | NoFlights                       // 404 'No flights found'
    | NoFlightsInAir                  // 404 'No flights found in the air'
    | Found(flight: Flight)           // 200 with the canonical record
    | FetchFailed(reason: FailureReason)  // 500 'Failed to fetch flight data'

  function Status(r: Reply): int {
    match r
    case MissingCoordinates => 400
    case NotConfigured => 503
    case NoFlights => 404
    case NoFlightsInAir => 404
    case Found(_) => 200
    case FetchFailed(_) => 500
  }

  /** The handler for a GET request with query `lat`, `lon`, the configured API
      key, and the upstream outcome `upstream`; `fetched` says whether the
      upstream request was made. */
  method Handle(lat: Option<string>, lon: Option<string>, apiKey: Option<string>, upstream: Upstream,
                parseFloat: string -> real, getDistance: DistanceFn, nowMs: int)
    returns (reply: Reply, fetched: bool)
    ensures !Truthy(lat) || !Truthy(lon) ==> reply == MissingCoordinates && !fetched
    ensures Truthy(lat) && Truthy(lon) && !Truthy(apiKey) ==> reply == NotConfigured && !fetched
    ensures fetched <==> Truthy(lat) && Truthy(lon) && Truthy(apiKey)
    ensures fetched && upstream.NotOk? ==> reply == FetchFailed(ApiError(upstream.status))
    ensures fetched && upstream.Threw? ==> reply == FetchFailed(Exception)
    ensures fetched && upstream.Payload? && (upstream.response.None? || upstream.response.value == []) ==>
              reply == NoFlights
    ensures fetched && upstream.Payload? && upstream.response.Some? && upstream.response.value != [] ==>
              var flights := upstream.response.value;
              && (reply == NoFlightsInAir <==> forall j | 0 <= j < |flights| :: !HasPosition(flights[j]))
              && ((exists j | 0 <= j < |flights| :: HasPosition(flights[j])) ==> reply.Found? && Status(reply) == 200)
              && (reply.Found? ==>
                    var latitude, longitude := parseFloat(lat.value), parseFloat(lon.value);
                    exists i :: && IsFirstNearest(flights, latitude, longitude, getDistance, i)
                                && reply.flight == ToCanonical(flights[i], DistanceTo(flights[i], latitude, longitude, getDistance), nowMs))
    ensures reply.Found? || reply.NoFlightsInAir? ==> fetched && upstream.Payload?
  {
    if !Truthy(lat) || !Truthy(lon) {
      return MissingCoordinates, false;
    }
    var latitude := parseFloat(lat.value);
    var longitude := parseFloat(lon.value);
    if !Truthy(apiKey) {
      return NotConfigured, false;
    }
    fetched := true;
    match upstream
    case NotOk(status) =>
      reply := FetchFailed(ApiError(status));
    case Threw =>
      reply := FetchFailed(Exception);
    case Payload(response) =>
      if response.None? || response.value == [] {
        return NoFlights, true;
      }
      var nearest, index := FindNearest(response.value, latitude, longitude, getDistance, nowMs);
      if nearest.None? {
        return NoFlightsInAir, true;
      }
      reply := Found(nearest.value);
  }

  /** The entry `airline_icao: "dal"` is reported as Delta Air Lines, and an
      unknown code such as "XYZ" as itself. */
  lemma AirlineLookupExamples()
    ensures AirlineName("dal") == "Delta Air Lines"
    ensures AirlineName("XYZ") == "XYZ"
    ensures AirlineName("Unknown") == "Unknown"
  {
    assert AsciiUpper("dal") == "DAL";
    assert AsciiUpper("XYZ") == "XYZ";
    assert AsciiUpper("Unknown") == "UNKNOWN";
  }

  /** The lookup ignores the case of ASCII letters: two codes that upper-case
      alike name the same airline when the code is known. */
  lemma AirlineLookupIgnoresCase(a: string, b: string)
    requires AsciiUpper(a) == AsciiUpper(b)
    requires AsciiUpper(a) in AirlineNames
    ensures AirlineName(a) == AirlineName(b)
  {
  }

  /** `flights2` is `flights` with possibly different `status` fields. */
  predicate SameButStatus(flights: seq<RawFlight>, flights2: seq<RawFlight>) {
    && |flights| == |flights2|
    && forall j | 0 <= j < |flights| :: flights2[j] == flights[j].(status := flights2[j].status)
  }

  /** Grounded entries are candidates like any other: the status of the entries
      does not change which one is selected, and a selected entry that is not
      'en-route' is reported with `on_ground` set. */
  lemma GroundedNotExcluded(flights: seq<RawFlight>, flights2: seq<RawFlight>, latitude: real, longitude: real,
                            getDistance: DistanceFn, i: int, nowMs: int)
    requires SameButStatus(flights, flights2)
    ensures IsFirstNearest(flights, latitude, longitude, getDistance, i) <==> IsFirstNearest(flights2, latitude, longitude, getDistance, i)
    ensures IsFirstNearest(flights2, latitude, longitude, getDistance, i) && flights2[i].status != Some("en-route") ==>
              ToCanonical(flights2[i], DistanceTo(flights2[i], latitude, longitude, getDistance), nowMs).onGround
  {
    forall j | 0 <= j < |flights|
      ensures HasPosition(flights[j]) <==> HasPosition(flights2[j])
      ensures HasPosition(flights[j]) ==>
                DistanceTo(flights[j], latitude, longitude, getDistance) == DistanceTo(flights2[j], latitude, longitude, getDistance)
    {
      assert flights2[j].lat == flights[j].lat && flights2[j].lng == flights[j].lng;
    }
  }

  /** The skip rule: an entry at latitude 0 or longitude 0, or without a
      coordinate, is never the selected one, whatever its distance. */
  lemma ZeroCoordinateNeverSelected(flights: seq<RawFlight>, latitude: real, longitude: real, getDistance: DistanceFn, i: int)
    requires 0 <= i < |flights|
    requires flights[i].lat == Some(0.0) || flights[i].lng == Some(0.0) || flights[i].lat.None? || flights[i].lng.None?
    ensures !IsFirstNearest(flights, latitude, longitude, getDistance, i)
  {
  }
}
