/** `getAddressFromCoords(lat, lng)`: an address, city and state for a
    coordinate pair, read from the first Google geocoder result with
    last-match scans (utils/getAddressFromCoords.ts). */
module AddressFromCoords {
  import opened Common
  import opened Http
  import opened GoogleGeocode

  /** `ReverseGeocodeResult` */
  datatype Address = Address(address: Option<string>, city: Option<string>, state: Option<string>, lat: real, lng: real)

  /** The lookup, given the public key and what the request yields. Without
      a key no request is made and the answer is `null`; a failed request,
      a non-OK response or an unreadable body is `null` too. Without a
      first result every field is `null` and the coordinates are echoed.
      Otherwise city and state are the LAST locality and first-level
      administrative area, and the address is `formatted_address`, kept
      even when empty. */
  method GetAddress(lat: real, lng: real, apiKey: Option<string>, upstream: Upstream<Json>)
    returns (r: Option<Address>, requested: bool)
    ensures requested <==> Truthy(apiKey)
    ensures r.Some? <==> requested && upstream.Fetched? && upstream.json.Doc?
    ensures r.Some? ==> r.value.lat == lat && r.value.lng == lng
    ensures r.Some? ==>
      var results := upstream.json.results;
      if results.None? || results.value == [] then
        r.value.address.None? && r.value.city.None? && r.value.state.None?
      else
        var result := results.value[0];
        var comps := result.components.GetOr([]);
        && r.value.address == result.formattedAddress
        && r.value.city == LastWithType(comps, "locality")
        && r.value.state == LastWithType(comps, "administrative_area_level_1")
  {
    if !Truthy(apiKey) {
      return None, false;
    }
    requested := true;
    if !upstream.Fetched? || upstream.json.Malformed? {
      return None, true;
    }
    var results := upstream.json.results;
    if results.None? || results.value == [] {
      return Some(Address(None, None, None, lat, lng)), true;
    }
    var result := results.value[0];
    var formatted := result.formattedAddress;
    var comps := result.components.GetOr([]);
    var city: Option<string> := None;
    var state: Option<string> := None;
    for i := 0 to |comps|
      invariant city == LastWithType(comps[..i], "locality")
      invariant state == LastWithType(comps[..i], "administrative_area_level_1")
    {
      assert comps[..i + 1][..i] == comps[..i];
      if HasType(comps[i], "locality") {
        city := Some(comps[i].longName);
      }
      if HasType(comps[i], "administrative_area_level_1") {
        state := Some(comps[i].longName);
      }
    }
    assert comps[..|comps|] == comps;
    r := Some(Address(formatted, city, state, lat, lng));
  }
}
