/** Facility search over the Overpass API (utils/overpass.ts): the search box
    around a centre, the ordered fallback over equivalent endpoints, the
    normalisation of raw OpenStreetMap elements into facility records, and
    the de-duplication of those records by a case-insensitive composite key. */
module Overpass {
  import opened Common
  import opened Strings
  import opened Sequences

  // ---------------------------------------------------------------------
  // Records

  /** A search envelope, in the order Overpass expects: south, west, north, east. */
  datatype BBox = BBox(south: real, west: real, north: real, east: real)

  /** A normalised facility (`OsmHospital`). */
  datatype OsmHospital = OsmHospital(
    id: string,
    name: string,
    address: Option<string>,
    city: Option<string>,
    state: Option<string>,
    phone: Option<string>,
    lat: Option<real>,
    lon: Option<real>,
    status: Option<Status>,
    area: Option<string>)

  /** The representative point Overpass adds to ways and relations (`out center`). */
  datatype Center = Center(lat: Option<real>, lon: Option<real>)

  /** A raw element of the `elements` array: its numeric id, its tag map
      (possibly absent), its own coordinates (nodes) and its centre. */
  datatype Element = Element(
    id: nat,
    tags: Option<map<string, string>>,
    lat: Option<real>,
    lon: Option<real>,
    center: Option<Center>)

  // ---------------------------------------------------------------------
  // The search box

  /** `bboxFromCenter(lat, lon, radiusKm = 3)`: 111 km per degree of latitude,
      and per degree of longitude scaled by the cosine of the latitude, which
      is the abstract `cosDeg` (cosine of an angle given in degrees). */
  function BBoxFromCenter(lat: real, lon: real, cosDeg: real -> NonZero, radiusKm: real := 3.0): (b: BBox)
    ensures radiusKm > 0.0 ==> b.south < lat < b.north
    ensures radiusKm > 0.0 && cosDeg(lat) > 0.0 ==> b.west < lon < b.east
    ensures b.north - b.south == 2.0 * radiusKm / 111.0
    ensures (b.south + b.north) / 2.0 == lat && (b.west + b.east) / 2.0 == lon
  {
    var dLat := radiusKm / 111.0;
    var dLon := radiusKm / (111.0 * cosDeg(lat));
    DivPositive(radiusKm, 111.0 * cosDeg(lat));
    BBox(lat - dLat, lon - dLon, lat + dLat, lon + dLon)
  }

  lemma DivPositive(x: real, y: NonZero)
    ensures x > 0.0 && y > 0.0 ==> x / y > 0.0
  {
  }

  // ---------------------------------------------------------------------
  // Normalisation

  /** The address tags whose non-empty values make up the address, in order. */
  const AddressKeys: seq<string> :=
    ["addr:housenumber", "addr:street", "addr:suburb", "addr:city", "addr:state"]

  const AreaKeys: seq<string> := ["addr:suburb", "addr:neighbourhood"]

  const Unnamed: string := "Unnamed Facility"

  /** `el.tags || {}` */
  function TagsOf(el: Element): map<string, string> {
    el.tags.GetOr(map[])
  }

  function AddressParts(tags: map<string, string>): seq<string> {
    Present(seq(|AddressKeys|, i requires 0 <= i < |AddressKeys| => Lookup(tags, AddressKeys[i])))
  }

  /** `addrParts.join(", ") || undefined` */
  function AddressOf(tags: map<string, string>): Option<string> {
    var joined := Join(AddressParts(tags), ", ");
    if joined == "" then None else Some(joined)
  }

  /** What one element becomes in the result list. */
  function Normalize(el: Element): (h: OsmHospital)
    ensures h.id == NatToString(el.id)
    ensures h.status == Some(Available)
    ensures h.name != ""
  {
    var tags := TagsOf(el);
    OsmHospital(
      id := NatToString(el.id),
      name := if Truthy(Lookup(tags, "name")) then tags["name"] else Unnamed,
      address := AddressOf(tags),
      city := Lookup(tags, "addr:city"),
      state := Lookup(tags, "addr:state"),
      phone := FirstTruthy(tags, ["phone", "contact:phone"]),
      lat := if el.lat.Some? then el.lat else if el.center.Some? then el.center.value.lat else None,
      lon := if el.lon.Some? then el.lon else if el.center.Some? then el.center.value.lon else None,
      status := Some(Available),
      area := Or(FirstTruthy(tags, AreaKeys), Lookup(tags, "addr:city")))
  }

  /** The address is absent exactly when no address tag has a non-empty
      value; otherwise it lists every such value, and nothing else, joined
      by `", "` in the order house number, street, suburb, city, state. */
  lemma NormalizeAddress(el: Element)
    ensures var tags := TagsOf(el);
      && (Normalize(el).address.None? <==> forall i :: 0 <= i < |AddressKeys| ==> !Truthy(Lookup(tags, AddressKeys[i])))
      && (Normalize(el).address.Some? ==> Normalize(el).address.value == Join(AddressParts(tags), ", "))
      && (forall p :: p in AddressParts(tags) <==> exists i :: 0 <= i < |AddressKeys| && Truthy(Lookup(tags, AddressKeys[i])) && tags[AddressKeys[i]] == p)
  {
    var tags := TagsOf(el);
    var opts := seq(|AddressKeys|, i requires 0 <= i < |AddressKeys| => Lookup(tags, AddressKeys[i]));
    assert forall i :: 0 <= i < |AddressKeys| ==> opts[i] == Lookup(tags, AddressKeys[i]);
    JoinEmptyIff(AddressParts(tags), ", ");
  }

  /** The name, area, phone and coordinate fallbacks. */
  lemma NormalizeFallbacks(el: Element)
    ensures var tags := TagsOf(el); var h := Normalize(el);
      && (h.name == Unnamed <==> (!Truthy(Lookup(tags, "name")) || tags["name"] == Unnamed))
      && (Truthy(Lookup(tags, "name")) ==> h.name == tags["name"])
      && h.city == Lookup(tags, "addr:city") && h.state == Lookup(tags, "addr:state")
      && (Truthy(Lookup(tags, "addr:suburb")) ==> h.area == Some(tags["addr:suburb"]))
      && (!Truthy(Lookup(tags, "addr:suburb")) && Truthy(Lookup(tags, "addr:neighbourhood")) ==> h.area == Some(tags["addr:neighbourhood"]))
      && (!Truthy(Lookup(tags, "addr:suburb")) && !Truthy(Lookup(tags, "addr:neighbourhood")) ==> h.area == Lookup(tags, "addr:city"))
      && (h.phone.Some? <==> Truthy(Lookup(tags, "phone")) || Truthy(Lookup(tags, "contact:phone")))
      && (Truthy(Lookup(tags, "phone")) ==> h.phone == Some(tags["phone"]))
      && (!Truthy(Lookup(tags, "phone")) && Truthy(Lookup(tags, "contact:phone")) ==> h.phone == Some(tags["contact:phone"]))
      && (el.lat.Some? ==> h.lat == el.lat)
      && (el.lat.None? && el.center.Some? ==> h.lat == el.center.value.lat)
      && (el.lon.Some? ==> h.lon == el.lon)
      && (el.lon.None? && el.center.Some? ==> h.lon == el.center.value.lon)
      && (el.lat.None? && el.center.None? ==> h.lat.None?)
      && (el.lon.None? && el.center.None? ==> h.lon.None?)
  {
    var tags := TagsOf(el);
    var phoneKeys := ["phone", "contact:phone"];
    assert phoneKeys[0] == "phone" && phoneKeys[1] == "contact:phone";
    assert AreaKeys[0] == "addr:suburb" && AreaKeys[1] == "addr:neighbourhood";
  }

  function NormalizeAll(els: seq<Element>): (hs: seq<OsmHospital>)
    ensures |hs| == |els|
    ensures forall i :: 0 <= i < |els| ==> hs[i] == Normalize(els[i])
  {
    seq(|els|, i requires 0 <= i < |els| => Normalize(els[i]))
  }

  // ---------------------------------------------------------------------
  // De-duplication

  /** `uniqueKey`: lower-cased `name|address|city`, a missing address or
      city counting as the empty string. */
  function UniqueKey(h: OsmHospital): string {
    Lower(h.name + "|" + h.address.GetOr("") + "|" + h.city.GetOr(""))
  }

  /** The key is the lower-cased parts joined by `|`: two records whose
      name, address and city agree up to letter case share a key. */
  lemma KeyIgnoresCase(a: OsmHospital, b: OsmHospital)
    requires Lower(a.name) == Lower(b.name)
    requires Lower(a.address.GetOr("")) == Lower(b.address.GetOr(""))
    requires Lower(a.city.GetOr("")) == Lower(b.city.GetOr(""))
    ensures UniqueKey(a) == UniqueKey(b)
  {
    KeyParts(a);
    KeyParts(b);
  }

  lemma KeyParts(h: OsmHospital)
    ensures UniqueKey(h) == Lower(h.name) + "|" + Lower(h.address.GetOr("")) + "|" + Lower(h.city.GetOr(""))
  {
    var n, a, c := h.name, h.address.GetOr(""), h.city.GetOr("");
    assert n + "|" + a + "|" + c == n + ("|" + (a + ("|" + c)));
    LowerConcat(n, "|" + (a + ("|" + c)));
    LowerConcat("|", a + ("|" + c));
    LowerConcat(a, "|" + c);
    LowerConcat("|", c);
  }

  /** The keys present in a list of records. */
  function KeysOf(hs: seq<OsmHospital>): set<string> {
    set h | h in hs :: UniqueKey(h)
  }

  /** The insertion-ordered values of a `Map` keyed by `uniqueKey`, filled
      by `if (!map.has(k)) map.set(k, h)` over the list from left to right. */
  function Dedup(hs: seq<OsmHospital>): seq<OsmHospital> {
    if hs == [] then []
    else
      var init := hs[..|hs| - 1];
      var h := hs[|hs| - 1];
      if UniqueKey(h) in KeysOf(init) then Dedup(init) else Dedup(init) + [h]
  }

  /** The first record of the list with key `k`. */
  function FirstWithKey(hs: seq<OsmHospital>, k: string): (h: OsmHospital)
    requires k in KeysOf(hs)
    ensures h in hs && UniqueKey(h) == k
  {
    if UniqueKey(hs[0]) == k then hs[0]
    else
      assert forall x :: x in hs && x != hs[0] ==> x in hs[1..];
      FirstWithKey(hs[1..], k)
  }

  lemma {:induction false} FirstWithKeyOfPrefix(hs: seq<OsmHospital>, h: OsmHospital, k: string)
    requires k in KeysOf(hs)
    ensures k in KeysOf(hs + [h]) && FirstWithKey(hs + [h], k) == FirstWithKey(hs, k)
  {
    assert (hs + [h])[0] == hs[0];
    if UniqueKey(hs[0]) != k {
      assert (hs + [h])[1..] == hs[1..] + [h];
      assert forall x :: x in hs && x != hs[0] ==> x in hs[1..];
      FirstWithKeyOfPrefix(hs[1..], h, k);
    }
  }

  lemma {:induction false} FirstWithNewKey(hs: seq<OsmHospital>, h: OsmHospital)
    requires UniqueKey(h) !in KeysOf(hs)
    ensures UniqueKey(h) in KeysOf(hs + [h]) && FirstWithKey(hs + [h], UniqueKey(h)) == h
  {
    assert h in hs + [h];
    if hs != [] {
      assert (hs + [h])[0] == hs[0];
      assert (hs + [h])[1..] == hs[1..] + [h];
      assert forall x :: x in hs[1..] ==> x in hs;
      FirstWithNewKey(hs[1..], h);
    }
  }

  lemma KeysOfSnoc(hs: seq<OsmHospital>, h: OsmHospital)
    ensures KeysOf(hs + [h]) == KeysOf(hs) + {UniqueKey(h)}
  {
    assert forall x :: x in hs + [h] <==> x in hs || x == h;
  }

  /** De-duplication keeps a subsequence of its input: records are only
      left out, never reordered or invented. */
  lemma {:induction false} DedupIsSubsequence(hs: seq<OsmHospital>)
    ensures IsSubsequence(Dedup(hs), hs)
  {
    if hs != [] {
      var init := hs[..|hs| - 1];
      var h := hs[|hs| - 1];
      assert hs == init + [h];
      DedupIsSubsequence(init);
      if UniqueKey(h) in KeysOf(init) {
        SubsequenceDropLast(Dedup(init), init, h);
      } else {
        var r := Dedup(init) + [h];
        assert r[..|r| - 1] == Dedup(init);
      }
    }
  }

  /** Every key of the input is the key of some kept record, and no other. */
  lemma {:induction false} DedupKeepsKeys(hs: seq<OsmHospital>)
    ensures KeysOf(Dedup(hs)) == KeysOf(hs)
  {
    if hs != [] {
      var init := hs[..|hs| - 1];
      var h := hs[|hs| - 1];
      assert hs == init + [h];
      DedupKeepsKeys(init);
      KeysOfSnoc(init, h);
      if UniqueKey(h) !in KeysOf(init) {
        KeysOfSnoc(Dedup(init), h);
      }
    }
  }

  /** No two kept records share a key. */
  lemma {:induction false} DedupKeysUnique(hs: seq<OsmHospital>)
    ensures var r := Dedup(hs);
      forall i, j :: 0 <= i < j < |r| ==> UniqueKey(r[i]) != UniqueKey(r[j])
  {
    if hs != [] {
      var init := hs[..|hs| - 1];
      var h := hs[|hs| - 1];
      DedupKeysUnique(init);
      if UniqueKey(h) in KeysOf(init) {
        assert Dedup(hs) == Dedup(init);
      } else {
        DedupKeepsKeys(init);
        var p := Dedup(init);
        var r := p + [h];
        assert Dedup(hs) == r;
        forall i, j | 0 <= i < j < |r|
          ensures UniqueKey(r[i]) != UniqueKey(r[j])
        {
          if j == |r| - 1 {
            assert r[i] == p[i] && p[i] in p && r[j] == h;
            assert UniqueKey(p[i]) in KeysOf(p);
          } else {
            assert r[i] == p[i] && r[j] == p[j];
          }
        }
      }
    }
  }

  /** The record kept for each key is the first record of the input with
      that key (first occurrence wins). */
  lemma {:induction false} DedupFirstWins(hs: seq<OsmHospital>)
    ensures forall i :: 0 <= i < |Dedup(hs)| ==>
      UniqueKey(Dedup(hs)[i]) in KeysOf(hs) && Dedup(hs)[i] == FirstWithKey(hs, UniqueKey(Dedup(hs)[i]))
  {
    if hs != [] {
      var init := hs[..|hs| - 1];
      var h := hs[|hs| - 1];
      assert hs == init + [h];
      DedupFirstWins(init);
      var p := Dedup(init);
      var r := Dedup(hs);
      assert r == p || r == p + [h];
      assert forall i :: 0 <= i < |p| ==> UniqueKey(p[i]) in KeysOf(init) && p[i] == FirstWithKey(init, UniqueKey(p[i]));
      forall i | 0 <= i < |r|
        ensures UniqueKey(r[i]) in KeysOf(hs) && r[i] == FirstWithKey(hs, UniqueKey(r[i]))
      {
        if i < |p| {
          assert r[i] == p[i];
          assert UniqueKey(p[i]) in KeysOf(init) && p[i] == FirstWithKey(init, UniqueKey(p[i]));
          FirstWithKeyOfPrefix(init, h, UniqueKey(p[i]));
        } else {
          assert r[i] == h;
          FirstWithNewKey(init, h);
        }
      }
    }
  }

  /** Two records that differ only in the letter case of name, address and
      city collapse to the first one. */
  lemma CaseVariantsCollapse(a: OsmHospital, b: OsmHospital)
    requires Lower(a.name) == Lower(b.name)
    requires Lower(a.address.GetOr("")) == Lower(b.address.GetOr(""))
    requires Lower(a.city.GetOr("")) == Lower(b.city.GetOr(""))
    ensures Dedup([a, b]) == [a]
  {
    KeyIgnoresCase(a, b);
    assert [a, b][..1] == [a];
    assert [a][..0] == [];
    assert KeysOf([]) == {};
    assert Dedup([a]) == [a];
    assert a in [a];
    assert UniqueKey(b) in KeysOf([a]);
  }

  /** Every facility returned for a response is the normalisation of one of
      its elements: it carries status "Available" and that element's id. */
  lemma DedupOfNormalized(els: seq<Element>)
    ensures forall h :: h in Dedup(NormalizeAll(els)) ==>
      exists i :: 0 <= i < |els| && h == Normalize(els[i]) && h.id == NatToString(els[i].id) && h.status == Some(Available)
    ensures |Dedup(NormalizeAll(els))| <= |els|
  {
    DedupIsSubsequence(NormalizeAll(els));
    SubsequenceMembers(Dedup(NormalizeAll(els)), NormalizeAll(els));
  }

  // ---------------------------------------------------------------------
  // Endpoints and the search

  const OverpassEndpoints: seq<string> := [
    "https://overpass-api.de/api/interpreter",
    "https://overpass.kumi.systems/api/interpreter",
    "https://z.overpass-api.de/api/interpreter"
  ]

  /** The decoded body of an OK response: undecodable, a falsy JSON value
      such as `null`, or an object with an optional `elements` array. */
  datatype Json = Malformed | Falsy | Doc(elements: Option<seq<Element>>)

  /** What one POST to an endpoint yields. */
  datatype Response = NetworkError | HttpStatus(ok: bool, body: Json)

  /** A response the loop keeps: OK with a body that decodes (a decoding
      error is caught and the next endpoint is tried). */
  predicate Accepted(r: Response) {
    r.HttpStatus? && r.ok && !r.body.Malformed?
  }

  /** Tries the endpoints in order and stops at the first accepted response;
      returns its body and how many endpoints were asked. */
  method SelectResponse(endpoints: seq<string>, respond: string -> Response)
    returns (json: Option<Json>, tried: nat)
    ensures tried <= |endpoints|
    ensures forall j :: 0 <= j < tried - 1 ==> !Accepted(respond(endpoints[j]))
    ensures json.Some? ==> 0 < tried && Accepted(respond(endpoints[tried - 1]))
                           && json.value == respond(endpoints[tried - 1]).body
    ensures json.None? ==> tried == |endpoints| && forall j :: 0 <= j < |endpoints| ==> !Accepted(respond(endpoints[j]))
  {
    json := None;
    tried := 0;
    while tried < |endpoints|
      invariant tried <= |endpoints|
      invariant forall j :: 0 <= j < tried ==> !Accepted(respond(endpoints[j]))
    {
      var res := respond(endpoints[tried]);
      tried := tried + 1;
      if Accepted(res) {
        json := Some(res.body);
        return;
      }
    }
  }

  /** The facilities a search finds, given the body the endpoint loop kept. */
  function SearchResult(json: Option<Json>): seq<OsmHospital> {
    match json
    case Some(Doc(els)) => Dedup(NormalizeAll(els.GetOr([])))
    case _ => []
  }

  /** `fetchHospitalsByBBox(bbox)`: `respond(ep, bbox)` is what a POST of the
      query for `bbox` to endpoint `ep` yields. No endpoint accepted, or a
      falsy body, gives the empty list; otherwise the elements are normalised
      in order and de-duplicated. */
  method FetchHospitalsByBBox(bbox: BBox, respond: (string, BBox) -> Response)
    returns (hospitals: seq<OsmHospital>, tried: nat)
    ensures 0 < tried <= |OverpassEndpoints|
    ensures forall j :: 0 <= j < tried - 1 ==> !Accepted(respond(OverpassEndpoints[j], bbox))
    ensures Accepted(respond(OverpassEndpoints[tried - 1], bbox)) ==>
              hospitals == SearchResult(Some(respond(OverpassEndpoints[tried - 1], bbox).body))
    ensures !Accepted(respond(OverpassEndpoints[tried - 1], bbox)) ==> tried == |OverpassEndpoints| && hospitals == []
  {
    var json;
    json, tried := SelectResponse(OverpassEndpoints, ep => respond(ep, bbox));
    if json.None? || !json.value.Doc? {
      hospitals := [];
      return;
    }
    var elements := json.value.elements.GetOr([]);
    var out := NormalizeElements(elements);
    hospitals := DedupByKey(out);
  }

  /** The `out.push` loop over the elements. */
  method NormalizeElements(elements: seq<Element>) returns (out: seq<OsmHospital>)
    ensures out == NormalizeAll(elements)
  {
    out := [];
    for i := 0 to |elements|
      invariant out == NormalizeAll(elements[..i])
    {
      out := out + [Normalize(elements[i])];
    }
    assert elements[..|elements|] == elements;
  }

  /** The `Map` loop: `seen` is the key set of the `Map`, `hospitals` its
      values in insertion order. */
  method DedupByKey(out: seq<OsmHospital>) returns (hospitals: seq<OsmHospital>)
    ensures hospitals == Dedup(out)
  {
    var seen: set<string> := {};
    hospitals := [];
    for i := 0 to |out|
      invariant seen == KeysOf(out[..i])
      invariant hospitals == Dedup(out[..i])
    {
      var h := out[i];
      assert out[..i + 1] == out[..i] + [h];
      assert out[..i + 1][..i] == out[..i];
      KeysOfSnoc(out[..i], h);
      if UniqueKey(h) !in seen {
        hospitals := hospitals + [h];
        seen := seen + {UniqueKey(h)};
      }
    }
    assert out[..|out|] == out;
  }
}
