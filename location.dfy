/** Result shaping of the two Nominatim lookups (utils/location.ts): reverse
    geocoding of a coordinate pair and forward geocoding of a city name. */
module Location {
  import opened Common
  import opened Http
  import Overpass

  // ---------------------------------------------------------------------
  // Reverse geocoding

  /** The decoded reverse-geocoding body: undecodable, `null`, or an object
      with an optional `address` tag map and `display_name`. */
  datatype ReverseJson = Malformed | Null | Place(address: Option<map<string, string>>, displayName: Option<string>)

  /** `ReverseGeo` */
  datatype ReverseGeo = ReverseGeo(lat: real, lon: real, address: Option<string>, city: Option<string>, state: Option<string>)

  /** The address tags tried for the city, in order. */
  const CityKeys: seq<string> := ["city", "town", "village", "suburb"]

  /** `reverseGeocodeNominatim(lat, lon)`, given what the request yields. A
      failed request, a non-OK response or a body that cannot be read (a
      thrown exception) gives `null`; otherwise the input coordinates are
      echoed, the city is the first non-empty of city, town, village and
      suburb, and state and address are their non-empty values or `null`. */
  function ReverseGeocode(lat: real, lon: real, response: Upstream<ReverseJson>): (r: Option<ReverseGeo>)
    ensures r.Some? <==> response.Fetched? && response.json.Place?
    ensures r.Some? ==> r.value.lat == lat && r.value.lon == lon
    ensures r.Some? ==>
      var addr := response.json.address.GetOr(map[]);
      && r.value.city == FirstTruthy(addr, CityKeys)
      && (r.value.state.Some? <==> Truthy(Lookup(addr, "state")))
      && (r.value.state.Some? ==> r.value.state.value == addr["state"])
      && (r.value.address.Some? <==> Truthy(response.json.displayName))
      && (r.value.address.Some? ==> r.value.address == response.json.displayName)
  {
    match response
    case Fetched(Place(address, displayName)) =>
      var addr := address.GetOr(map[]);
      Some(ReverseGeo(lat, lon,
        address := if Truthy(displayName) then displayName else None,
        city := FirstTruthy(addr, CityKeys),
        state := if Truthy(Lookup(addr, "state")) then Lookup(addr, "state") else None))
    case _ => None
  }

  // ---------------------------------------------------------------------
  // Forward geocoding

  /** One search hit, its numbers already read by `parseFloat`. */
  datatype SearchItem = SearchItem(
    lat: real,
    lon: real,
    boundingbox: Option<seq<real>>,
    state: Option<string>,
    displayName: Option<string>)

  /** The decoded search body: undecodable, not an array, or the hits. */
  datatype SearchJson = Unreadable | NotArray | Items(items: seq<SearchItem>)

  /** `CityGeo` */
  datatype CityGeo = CityGeo(
    city: string,
    state: Option<string>,
    displayName: Option<string>,
    lat: real,
    lon: real,
    bbox: Option<Overpass.BBox>)

  /** Nominatim gives `[south, north, west, east]`; Overpass wants
      south, west, north, east. Only an array of exactly four is used. */
  function ReorderBBox(raw: Option<seq<real>>): (b: Option<Overpass.BBox>)
    ensures b.Some? <==> raw.Some? && |raw.value| == 4
    ensures b.Some? ==> && b.value.south == raw.value[0] && b.value.north == raw.value[1]
                        && b.value.west == raw.value[2] && b.value.east == raw.value[3]
  {
    if raw.Some? && |raw.value| == 4 then
      Some(Overpass.BBox(raw.value[0], raw.value[2], raw.value[1], raw.value[3]))
    else None
  }

  /** `geocodeCityNominatim(city)`, given what the request yields: `null`
      unless the response is OK and an array with at least one hit; then
      only the first hit is used, and the city returned is the query itself. */
  function GeocodeCity(city: string, response: Upstream<SearchJson>): (r: Option<CityGeo>)
    ensures r.Some? <==> response.Fetched? && response.json.Items? && |response.json.items| > 0
    ensures r.Some? ==>
      var item := response.json.items[0];
      && r.value.city == city
      && r.value.lat == item.lat && r.value.lon == item.lon
      && r.value.state == item.state && r.value.displayName == item.displayName
      && r.value.bbox == ReorderBBox(item.boundingbox)
  {
    match response
    case Fetched(Items(items)) =>
      if |items| == 0 then None
      else
        var item := items[0];
        Some(CityGeo(city, item.state, item.displayName, item.lat, item.lon, ReorderBBox(item.boundingbox)))
    case _ => None
  }

  /** Hits after the first one make no difference. */
  lemma GeocodeUsesFirstItem(city: string, items1: seq<SearchItem>, items2: seq<SearchItem>)
    requires |items1| > 0 && |items2| > 0 && items1[0] == items2[0]
    ensures GeocodeCity(city, Fetched(Items(items1))) == GeocodeCity(city, Fetched(Items(items2)))
  {
  }
}
