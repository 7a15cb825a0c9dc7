/** The Google geocoding response as the three Google lookups read it, and
    the two ways they scan a result's address components: stop at the first
    city-like component, or keep overwriting so the last match wins. */
module GoogleGeocode {
  import opened Common

  /** One entry of `address_components`; `types` may be missing. */
  datatype Component = Component(longName: string, types: Option<seq<string>>)

  /** `geometry.location`; either coordinate may be missing. */
  datatype LatLng = LatLng(lat: Option<real>, lng: Option<real>)

  /** One entry of `results`. `location` is `geometry.location`, absent when
      `geometry` or its `location` is missing. */
  datatype Result = Result(
    components: Option<seq<Component>>,
    formattedAddress: Option<string>,
    location: Option<LatLng>)

  /** The decoded body: not an object (reading a field throws), or an object
      whose `results` may be missing. */
  datatype Json = Malformed | Doc(results: Option<seq<Result>>)

  /** `comp.types?.includes(t)`: a missing list includes nothing. */
  predicate HasType(c: Component, t: string) {
    c.types.Some? && t in c.types.value
  }

  /** A component that names the city: a locality or a second-level
      administrative area. */
  predicate IsCity(c: Component) {
    HasType(c, "locality") || HasType(c, "administrative_area_level_2")
  }

  /** The city of a first-match scan: the name of the earliest city-like
      component, or `null`. */
  function FirstCity(comps: seq<Component>): (r: Option<string>)
    ensures r.Some? <==> exists i :: 0 <= i < |comps| && IsCity(comps[i])
    ensures r.Some? ==> exists i :: 0 <= i < |comps| && IsCity(comps[i]) && comps[i].longName == r.value
                           && forall j :: 0 <= j < i ==> !IsCity(comps[j])
  {
    if comps == [] then None
    else if IsCity(comps[0]) then Some(comps[0].longName)
    else
      var r := FirstCity(comps[1..]);
      assert forall i :: 1 <= i < |comps| ==> comps[i] == comps[1..][i - 1];
      r
  }

  /** How a scan that reads `comp.types.includes(...)` without `?.` ends: it
      throws on a component with no `types`, or it finishes with a city. */
  datatype Scan = Threw | Done(city: Option<string>)

  /** The first-match scan without optional chaining: it throws exactly when
      a component without `types` comes before every city-like one, and
      otherwise finds the same city as `FirstCity`. */
  function StrictFirstCity(comps: seq<Component>): (r: Scan)
    ensures r.Done? ==> r.city == FirstCity(comps)
    ensures r.Threw? <==> exists i :: 0 <= i < |comps| && comps[i].types.None?
                                    && forall j :: 0 <= j < i ==> !IsCity(comps[j])
  {
    if comps == [] then Done(None)
    else if comps[0].types.None? then Threw
    else if IsCity(comps[0]) then Done(Some(comps[0].longName))
    else
      var r := StrictFirstCity(comps[1..]);
      assert forall i :: 1 <= i < |comps| ==> comps[i] == comps[1..][i - 1];
      r
  }

  /** The value of a last-match scan for type `t`: the name of the latest
      component of that type, or `null`. */
  function LastWithType(comps: seq<Component>, t: string): (r: Option<string>)
    ensures r.Some? <==> exists i :: 0 <= i < |comps| && HasType(comps[i], t)
    ensures r.Some? ==> exists i :: 0 <= i < |comps| && HasType(comps[i], t) && comps[i].longName == r.value
                           && forall j :: i < j < |comps| ==> !HasType(comps[j], t)
  {
    if comps == [] then None
    else if HasType(comps[|comps| - 1], t) then Some(comps[|comps| - 1].longName)
    else LastWithType(comps[..|comps| - 1], t)
  }

  /** The two scans part ways when two localities are listed: the
      first-match scan takes the first one, the last-match scan the second. */
  lemma FirstAndLastDiffer(a: string, b: string)
    ensures var comps := [Component(a, Some(["locality"])), Component(b, Some(["locality"]))];
            FirstCity(comps) == Some(a) && LastWithType(comps, "locality") == Some(b)
  {
  }
}
