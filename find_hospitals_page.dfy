/** The find-hospitals page (app/find-hospitals/page.tsx): its state, the
    search around the current centre that widens once when nothing is
    found, re-centring on a typed city, the one-time location prompt, and
    booking a token at a listed facility. */
module FindHospitalsPage {
  import opened Common
  import opened Strings
  import opened Http
  import Overpass
  import Location
  import Store
  import BookToken

  const SearchRadiusKm: real := 8.0
  const WideRadiusKm: real := 12.0

  /** What the browser's geolocation yields: no API, a refusal or error,
      or a position. */
  datatype Geolocation = Unsupported | Refused | Position(latitude: real, longitude: real)

  /** The body `handleBook` posts. */
  function BookingPayload(hospitalName: string, city: string): (d: Store.Doc)
    ensures d.Keys == {"userId", "hospital", "city"}
    ensures d["userId"] == Store.Str("anonymous") && d["hospital"] == Store.Str(hospitalName) && d["city"] == Store.Str(city)
  {
    map["userId" := Store.Str("anonymous"), "hospital" := Store.Str(hospitalName), "city" := Store.Str(city)]
  }

  /** Every listed facility has a name, so a booking from this page is
      accepted by the booking route exactly when a city is known. */
  lemma BookingAcceptedIffCity(h: Overpass.OsmHospital, city: string)
    requires h.name != ""
    ensures BookToken.HasFields(BookingPayload(h.name, city)) <==> city != ""
  {
  }

  /** Where a typed city re-centres the map: the middle of its bounding box,
      or its point when the look-up gave no box. */
  function CityCentre(found: Location.CityGeo): (c: (real, real))
    ensures found.bbox.Some? ==>
              var b := found.bbox.value;
              c == ((b.south + b.north) / 2.0, (b.west + b.east) / 2.0)
    ensures found.bbox.Some? ==>
              var b := found.bbox.value;
              b.south <= b.north ==> b.south <= c.0 <= b.north
    ensures found.bbox.Some? ==>
              var b := found.bbox.value;
              b.west <= b.east ==> b.west <= c.1 <= b.east
    ensures found.bbox.None? ==> c == (found.lat, found.lon)
  {
    match found.bbox
    case Some(b) => ((b.south + b.north) / 2.0, (b.west + b.east) / 2.0)
    case None => (found.lat, found.lon)
  }

  class Page {
    var lat: Option<real>
    var lon: Option<real>
    var city: string
    var stateName: Option<string>
    var address: Option<string>
    var locationDetected: bool
    var showLocationPopup: bool
    var cityInput: string
    var hospitals: seq<Overpass.OsmHospital>
    var loadingHospitals: bool
    var loadingLocation: bool
    /** `localStorage.locationPermissionAsked` */
    var permissionAsked: Option<string>

    /** The first render followed by the mount effect: the location prompt
        opens only when the flag has never been stored. */
    constructor(storedFlag: Option<string>)
      ensures lat.None? && lon.None? && city == "" && stateName.None? && address.None?
      ensures !locationDetected && cityInput == "" && hospitals == []
      ensures !loadingHospitals && !loadingLocation
      ensures permissionAsked == storedFlag
      ensures showLocationPopup <==> !Truthy(storedFlag)
    {
      lat, lon := None, None;
      city, stateName, address := "", None, None;
      locationDetected := false;
      cityInput := "";
      hospitals := [];
      loadingHospitals, loadingLocation := false, false;
      permissionAsked := storedFlag;
      showLocationPopup := !Truthy(storedFlag);
    }

    /** The memoised search box: only with both coordinates, radius 8 km. */
    function SearchBox(cosDeg: real -> NonZero): (b: Option<Overpass.BBox>)
      reads this
      ensures b.Some? <==> lat.Some? && lon.Some?
      ensures b.Some? ==> b.value == Overpass.BBoxFromCenter(lat.value, lon.value, cosDeg, SearchRadiusKm)
      ensures b.Some? ==> b.value.south < lat.value < b.value.north
    {
      if lat.Some? && lon.Some? then Some(Overpass.BBoxFromCenter(lat.value, lon.value, cosDeg, SearchRadiusKm))
      else None
    }

    /** `fetchHospitals`, given the search (`None` when it throws). It
        returns the boxes searched: none without a centre, the 8 km box,
        and the 12 km box only when the first search found nothing. */
    method FetchHospitals(cosDeg: real -> NonZero, search: Overpass.BBox -> Option<seq<Overpass.OsmHospital>>)
      returns (searched: seq<Overpass.BBox>)
      modifies this
      ensures lat == old(lat) && lon == old(lon) && city == old(city) && stateName == old(stateName)
      ensures address == old(address) && locationDetected == old(locationDetected)
      ensures showLocationPopup == old(showLocationPopup) && cityInput == old(cityInput)
      ensures loadingLocation == old(loadingLocation) && permissionAsked == old(permissionAsked)
      ensures old(SearchBox(cosDeg)).None? ==>
                searched == [] && hospitals == old(hospitals) && loadingHospitals == old(loadingHospitals)
      ensures old(SearchBox(cosDeg)).Some? ==>
                var first := old(SearchBox(cosDeg)).value;
                var wide := Overpass.BBoxFromCenter(lat.value, lon.value, cosDeg, WideRadiusKm);
                && !loadingHospitals
                && (search(first) == Some([]) ==> searched == [first, wide] && hospitals == search(wide).GetOr([]))
                && (search(first) != Some([]) ==> searched == [first] && hospitals == search(first).GetOr([]))
    {
      var box := SearchBox(cosDeg);
      if box.None? {
        return [];
      }
      loadingHospitals := true;
      searched := [box.value];
      var list := search(box.value);
      if list == Some([]) {
        var wider := Overpass.BBoxFromCenter(lat.value, lon.value, cosDeg, WideRadiusKm);
        searched := searched + [wider];
        list := search(wider);
      }
      hospitals := list.GetOr([]);
      loadingHospitals := false;
    }

    /** A found city becomes the current one and the map centre moves to it. */
    method Recentre(found: Location.CityGeo)
      modifies this
      ensures city == found.city && stateName == found.state
      ensures lat == Some(CityCentre(found).0) && lon == Some(CityCentre(found).1)
      ensures address == old(address) && locationDetected == old(locationDetected)
      ensures showLocationPopup == old(showLocationPopup) && hospitals == old(hospitals)
      ensures loadingHospitals == old(loadingHospitals) && loadingLocation == old(loadingLocation)
      ensures permissionAsked == old(permissionAsked) && cityInput == old(cityInput)
    {
      city := found.city;
      stateName := found.state;
      var centre := CityCentre(found);
      lat := Some(centre.0);
      lon := Some(centre.1);
    }

    /** The city-input effect after its debounce, given what forward
        geocoding of the trimmed input yields. Blank input does nothing;
        otherwise a found city moves the centre to the middle of its
        bounding box, or to its point when it has none. */
    method CityInputChanged(input: string, response: Http.Upstream<Location.SearchJson>)
      modifies this
      ensures cityInput == input
      ensures address == old(address) && locationDetected == old(locationDetected)
      ensures showLocationPopup == old(showLocationPopup) && hospitals == old(hospitals)
      ensures loadingHospitals == old(loadingHospitals) && loadingLocation == old(loadingLocation)
      ensures permissionAsked == old(permissionAsked)
      ensures var info := Location.GeocodeCity(Trim(input), response);
              if Trim(input) == "" || info.None? then
                lat == old(lat) && lon == old(lon) && city == old(city) && stateName == old(stateName)
              else
                && city == info.value.city && stateName == info.value.state
                && lat == Some(CityCentre(info.value).0) && lon == Some(CityCentre(info.value).1)
    {
      cityInput := input;
      var query := Trim(input);
      if query != "" {
        var info := Location.GeocodeCity(query, response);
        if info.Some? {
          Recentre(info.value);
        }
      }
    }

    /** What `handleLiveLocation` does to the page, from the state before
        it to the state after it: without geolocation nothing changes; a
        refusal only clears the loading flag; a position is adopted, and a
        reverse-geocoding result fills city (or ""), state and address,
        marks the location detected and copies a non-empty city into the
        input. The facility list and the prompt are left alone. */
    twostate predicate Located(geo: Geolocation, response: Http.Upstream<Location.ReverseJson>)
      reads this
    {
      && hospitals == old(hospitals) && loadingHospitals == old(loadingHospitals)
      && (geo.Unsupported? ==> loadingLocation == old(loadingLocation))
      && (!geo.Unsupported? ==> !loadingLocation)
      && (!geo.Position? ==>
            && lat == old(lat) && lon == old(lon) && city == old(city) && stateName == old(stateName)
            && address == old(address) && locationDetected == old(locationDetected) && cityInput == old(cityInput))
      && (geo.Position? ==>
            var rev := Location.ReverseGeocode(geo.latitude, geo.longitude, response);
            && lat == Some(geo.latitude) && lon == Some(geo.longitude)
            && (rev.None? ==>
                  && city == old(city) && stateName == old(stateName) && address == old(address)
                  && locationDetected == old(locationDetected) && cityInput == old(cityInput))
            && (rev.Some? ==>
                  && city == rev.value.city.GetOr("") && stateName == rev.value.state
                  && address == rev.value.address && locationDetected
                  && cityInput == if Truthy(rev.value.city) then rev.value.city.value else old(cityInput)))
    }

    /** `handleLiveLocation`, given the geolocation outcome and what reverse
        geocoding of the position yields. */
    method LiveLocation(geo: Geolocation, response: Http.Upstream<Location.ReverseJson>)
      modifies this
      ensures showLocationPopup == old(showLocationPopup) && permissionAsked == old(permissionAsked)
      ensures Located(geo, response)
    {
      if geo.Unsupported? {
        return;
      }
      loadingLocation := true;
      if geo.Position? {
        lat := Some(geo.latitude);
        lon := Some(geo.longitude);
        var rev := Location.ReverseGeocode(geo.latitude, geo.longitude, response);
        if rev.Some? {
          city := rev.value.city.GetOr("");
          stateName := rev.value.state;
          address := rev.value.address;
          locationDetected := true;
          if Truthy(rev.value.city) {
            cityInput := rev.value.city.value;
          }
        }
      }
      loadingLocation := false;
    }

    /** "Allow" on the prompt: remember the answer, close the prompt, then
        locate. */
    method AllowLocation(geo: Geolocation, response: Http.Upstream<Location.ReverseJson>)
      modifies this
      ensures permissionAsked == Some("true") && !showLocationPopup
      ensures Located(geo, response)
    {
      permissionAsked := Some("true");
      showLocationPopup := false;
      LiveLocation(geo, response);
    }

    /** "Deny" on the prompt: remember the answer and close the prompt. */
    method DenyLocation()
      modifies this
      ensures permissionAsked == Some("true") && !showLocationPopup
      ensures lat == old(lat) && lon == old(lon) && city == old(city) && stateName == old(stateName)
      ensures address == old(address) && locationDetected == old(locationDetected) && cityInput == old(cityInput)
      ensures hospitals == old(hospitals) && loadingHospitals == old(loadingHospitals)
      ensures loadingLocation == old(loadingLocation)
    {
      permissionAsked := Some("true");
      showLocationPopup := false;
    }

    /** `handleBook`: what is posted, and the message shown for the
        response (`None` when the request throws). */
    method HandleBook(h: Overpass.OsmHospital, responseOk: Option<bool>) returns (payload: Store.Doc, message: string)
      ensures payload == BookingPayload(h.name, city)
      ensures message == if responseOk == Some(true) then "Token booked successfully" else "Failed to book token"
    {
      payload := BookingPayload(h.name, city);
      message := if responseOk == Some(true) then "Token booked successfully" else "Failed to book token";
    }
  }
}
