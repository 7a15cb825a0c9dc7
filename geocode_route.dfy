/** `GET /api/geocode?q=`: coordinates and city of a free-text place from the
    first result of the Google geocoder (app/api/geocode/route.ts). */
module GeocodeRoute {
  import opened Common
  import opened Http
  import opened GoogleGeocode

  /** `{ lat, lng, city }`; a coordinate the location lacks is `undefined`,
      which the JSON reply leaves out. */
  datatype Place = Place(lat: Option<real>, lng: Option<real>, city: Option<string>)

  /** The reply once the upstream request has been made. A missing first
      result is a `null` body, not an error; a first result without a
      location makes reading `location.lat` throw, which is a 500; a
      location lacking one coordinate is still answered. */
  function AfterRequest(upstream: Upstream<Json>): Reply<Option<Place>> {
    match upstream
    case NetworkError => Fail(500, "Unexpected error")
    case NotOk => Fail(502, "Failed to fetch geocoding data")
    case Fetched(Malformed) => Fail(500, "Unexpected error")
    case Fetched(Doc(results)) =>
      if results.None? || results.value == [] then Ok(None)
      else
        var result := results.value[0];
        match result.location
        case None => Fail(500, "Unexpected error")
        case Some(loc) => Ok(Some(Place(loc.lat, loc.lng, FirstCity(result.components.GetOr([])))))
  }

  /** The handler, given the query parameter, the configured key and what the
      upstream request yields: a missing query is a 400, then a missing key
      a 500, and neither makes a request. */
  method Get(q: Option<string>, apiKey: Option<string>, upstream: Upstream<Json>)
    returns (reply: Reply<Option<Place>>, requested: bool)
    ensures !Truthy(q) ==> reply == Fail(400, "q is required") && !requested
    ensures Truthy(q) && !Truthy(apiKey) ==> reply == Fail(500, "GOOGLE_MAPS_API_KEY is not configured") && !requested
    ensures requested <==> Truthy(q) && Truthy(apiKey)
    ensures requested ==> reply == AfterRequest(upstream)
  {
    if !Truthy(q) {
      return Fail(400, "q is required"), false;
    }
    if !Truthy(apiKey) {
      return Fail(500, "GOOGLE_MAPS_API_KEY is not configured"), false;
    }
    requested := true;
    if upstream.NetworkError? {
      return Fail(500, "Unexpected error"), true;
    }
    if upstream.NotOk? {
      return Fail(502, "Failed to fetch geocoding data"), true;
    }
    if upstream.json.Malformed? {
      return Fail(500, "Unexpected error"), true;
    }
    var results := upstream.json.results;
    if results.None? || results.value == [] {
      return Ok(None), true;
    }
    var result := results.value[0];
    var location := result.location;
    var comps := result.components.GetOr([]);
    var city: Option<string> := None;
    for i := 0 to |comps|
      invariant FirstCity(comps[i..]) == FirstCity(comps)
    {
      if IsCity(comps[i]) {
        city := Some(comps[i].longName);
        break;
      }
      assert comps[i..][1..] == comps[i + 1..];
    }
    if location.None? {
      return Fail(500, "Unexpected error"), true;
    }
    reply := Ok(Some(Place(location.value.lat, location.value.lng, city)));
  }

  /** A result with a location always answers 200 with that location, and
      its city is the name of a city-like component or `null`. */
  lemma LocatedResultAnswers(result: Result, rest: seq<Result>)
    requires result.location.Some?
    ensures var reply := AfterRequest(Fetched(Doc(Some([result] + rest))));
            && reply.status == 200 && reply.body.Payload? && reply.body.value.Some?
            && reply.body.value.value.lat == result.location.value.lat
            && reply.body.value.value.lng == result.location.value.lng
            && (reply.body.value.value.city.Some? ==>
                  exists c :: c in result.components.GetOr([]) && IsCity(c) && c.longName == reply.body.value.value.city.value)
  {
    var comps := result.components.GetOr([]);
    var city := FirstCity(comps);
    if city.Some? {
      var i :| 0 <= i < |comps| && IsCity(comps[i]) && comps[i].longName == city.value;
      assert comps[i] in comps;
    }
  }
}
