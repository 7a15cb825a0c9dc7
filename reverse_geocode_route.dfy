/** `GET /api/reverse-geocode?lat=&lng=`: the city of a coordinate pair from
    the first result of the Google geocoder (app/api/reverse-geocode/route.ts). */
module ReverseGeocodeRoute {
  import opened Common
  import opened Http
  import opened GoogleGeocode

  /** The reply the route gives once the upstream request has been made. */
  function AfterRequest(upstream: Upstream<Json>): Reply<Option<string>> {
    match upstream
    case NetworkError => Fail(500, "Unexpected error")
    case NotOk => Fail(502, "Failed to fetch geocoding data")
    case Fetched(Malformed) => Fail(500, "Unexpected error")
    case Fetched(Doc(results)) =>
      var rs := results.GetOr([]);
      if rs == [] then Ok(None)
      else if rs[0].components.None? then Fail(500, "Unexpected error")
      else match StrictFirstCity(rs[0].components.value)
        case Threw => Fail(500, "Unexpected error")
        case Done(city) => Ok(city)
  }

  /** The handler, given the two query parameters, the configured key and
      what the upstream request yields. `requested` tells whether the
      request is made. Missing coordinates are rejected first (400), then a
      missing key (500); neither makes a request. */
  method Get(lat: Option<string>, lng: Option<string>, apiKey: Option<string>, upstream: Upstream<Json>)
    returns (reply: Reply<Option<string>>, requested: bool)
    ensures !Truthy(lat) || !Truthy(lng) ==> reply == Fail(400, "lat and lng are required") && !requested
    ensures Truthy(lat) && Truthy(lng) && !Truthy(apiKey) ==>
              reply == Fail(500, "GOOGLE_MAPS_API_KEY is not configured") && !requested
    ensures requested <==> Truthy(lat) && Truthy(lng) && Truthy(apiKey)
    ensures requested ==> reply == AfterRequest(upstream)
  {
    requested := false;
    if !Truthy(lat) || !Truthy(lng) {
      return Fail(400, "lat and lng are required"), false;
    }
    if !Truthy(apiKey) {
      return Fail(500, "GOOGLE_MAPS_API_KEY is not configured"), false;
    }
    requested := true;
    if upstream.NetworkError? {
      return Fail(500, "Unexpected error"), true;
    }
    if upstream.NotOk? {
      return Fail(502, "Failed to fetch geocoding data"), true;
    }
    if upstream.json.Malformed? {
      return Fail(500, "Unexpected error"), true;
    }
    var results := upstream.json.results.GetOr([]);
    var city: Option<string> := None;
    if |results| > 0 {
      if results[0].components.None? {
        return Fail(500, "Unexpected error"), true;
      }
      var comps := results[0].components.value;
      var i := 0;
      while i < |comps|
        invariant 0 <= i <= |comps|
        invariant StrictFirstCity(comps[i..]) == StrictFirstCity(comps)
      {
        if comps[i].types.None? {
          return Fail(500, "Unexpected error"), true;
        }
        if IsCity(comps[i]) {
          city := Some(comps[i].longName);
          break;
        }
        assert comps[i..][1..] == comps[i + 1..];
        i := i + 1;
      }
    }
    reply := Ok(city);
  }

  /** On a readable answer whose components all carry `types`, the city is
      the first locality or second-level area, or `null` when there is none
      or when there are no results. */
  lemma CityIsFirstMatch(results: seq<Result>)
    requires results != [] ==> results[0].components.Some?
    requires results != [] ==> forall c :: c in results[0].components.value ==> c.types.Some?
    ensures AfterRequest(Fetched(Doc(Some(results)))) ==
              Ok(if results == [] then None else FirstCity(results[0].components.value))
  {
    if results != [] {
      var comps := results[0].components.value;
      assert forall i :: 0 <= i < |comps| ==> comps[i] in comps;
    }
  }
}
