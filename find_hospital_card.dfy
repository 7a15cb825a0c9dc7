/** The richer hospital card (components/find-hospitals/HospitalCard.tsx):
    a three-piece address text, optional rating, reviews and fee, specialty
    badges, and a Book button enabled only for available facilities. */
module FindHospitalCard {
  import opened Common
  import opened Strings

  /** `Hospital` (types/hospital.ts); numbers that are not numbers are `None`. */
  datatype Hospital = Hospital(
    id: Option<string>,
    name: string,
    address: Option<string>,
    city: string,
    state: Option<string>,
    specialties: Option<seq<string>>,
    status: Status,
    contact: string,
    distance: Option<string>,
    rating: Option<real>,
    reviews: Option<int>,
    fee: Option<int>)

  /** The address text as the card writes it: the address, then the city
      (after ", " only when there is an address), then ", " and the state
      whenever there is a state. */
  function AddressTextAsWritten(h: Hospital): string {
    (if Truthy(h.address) then h.address.value else "")
    + (if h.city != "" then (if Truthy(h.address) then ", " else "") + h.city else "")
    + (if Truthy(h.state) then ", " + h.state.value else "")
  }

  /** With neither address nor city, the text starts with a stray ", ". */
  lemma StateAloneHasLeadingComma(s: string)
    requires s != ""
    ensures AddressTextAsWritten(Hospital(None, "H", None, "", Some(s), None, Available, "", None, None, None, None))
              == ", " + s
  {
  }

  /** The address text the card evidently means: the parts that are set,
      separated by ", ". */
  function AddressText(h: Hospital): (t: string)
    ensures t == "" <==> !Truthy(h.address) && h.city == "" && !Truthy(h.state)
  {
    var parts := [h.address, Some(h.city), h.state];
    JoinEmptyIff(Present(parts), ", ");
    assert Truthy(h.address) ==> Truthy(parts[0]);
    assert h.city != "" ==> Truthy(parts[1]);
    assert Truthy(h.state) ==> Truthy(parts[2]);
    Join(Present(parts), ", ")
  }

  /** A state alone is written as just the state. */
  lemma StateAloneIsState(h: Hospital)
    requires !Truthy(h.address) && h.city == "" && Truthy(h.state)
    ensures AddressText(h) == h.state.value
  {
    var parts := [h.address, Some(h.city), h.state];
    assert Present(parts[2..]) == [h.state.value];
    assert Present(parts[1..]) == Present(parts[2..]);
  }

  /** The parts that are set, out of three. */
  lemma PresentThree(x: Option<string>, y: Option<string>, z: Option<string>)
    ensures Present([x, y, z]) ==
      (if Truthy(x) then [x.value] else []) + (if Truthy(y) then [y.value] else []) + (if Truthy(z) then [z.value] else [])
  {
    assert [z][1..] == [];
    assert Present([z]) == (if Truthy(z) then [z.value] else []);
    assert [y, z][1..] == [z];
    assert Present([y, z]) == (if Truthy(y) then [y.value] else []) + Present([z]);
    assert [x, y, z][1..] == [y, z];
    assert Present([x, y, z]) == (if Truthy(x) then [x.value] else []) + Present([y, z]);
  }

  lemma JoinPair(a: string, b: string, sep: string)
    ensures Join([a, b], sep) == a + sep + b
  {
    assert [a, b][1..] == [b];
  }

  lemma JoinTriple(a: string, b: string, c: string, sep: string)
    ensures Join([a, b, c], sep) == a + sep + b + sep + c
  {
    assert [a, b, c][1..] == [b, c];
    JoinPair(b, c, sep);
  }

  /** The two agree except in that one case: a state with neither address
      nor city. */
  lemma AsWrittenAgreesOtherwise(h: Hospital)
    requires Truthy(h.address) || h.city != "" || !Truthy(h.state)
    ensures AddressTextAsWritten(h) == AddressText(h)
  {
    PresentThree(h.address, Some(h.city), h.state);
    var a, c := h.address.GetOr(""), h.city;
    var parts := Present([h.address, Some(h.city), h.state]);
    if Truthy(h.address) && c != "" && Truthy(h.state) {
      assert parts == [a, c, h.state.value];
      JoinTriple(a, c, h.state.value, ", ");
    } else if Truthy(h.address) && c != "" {
      assert parts == [a, c];
      JoinPair(a, c, ", ");
    } else if Truthy(h.address) && Truthy(h.state) {
      assert parts == [a, h.state.value];
      JoinPair(a, h.state.value, ", ");
    } else if c != "" && Truthy(h.state) {
      assert parts == [c, h.state.value];
      JoinPair(c, h.state.value, ", ");
    }
  }

  /** What the card shows and does apart from the address text. */
  datatype View = View(
    availableStyle: bool,
    badge: Status,
    showRating: bool,
    showReviews: bool,
    showFee: bool,
    badges: seq<string>,
    callHref: string,
    bookDisabled: bool)

  function Render(h: Hospital): (v: View)
    ensures v.availableStyle <==> h.status == Available
    ensures v.bookDisabled <==> h.status != Available
    ensures v.showRating <==> h.rating.Some?
    ensures v.showReviews <==> h.rating.Some? && h.reviews.Some?
    ensures v.showFee <==> h.fee.Some?
    ensures v.badges == h.specialties.GetOr([])
    ensures v.callHref == "tel:" + h.contact
  {
    View(
      availableStyle := h.status == Available,
      badge := h.status,
      showRating := h.rating.Some?,
      showReviews := h.rating.Some? && h.reviews.Some?,
      showFee := h.fee.Some?,
      badges := h.specialties.GetOr([]),
      callHref := "tel:" + h.contact,
      bookDisabled := h.status != Available)
  }
}
