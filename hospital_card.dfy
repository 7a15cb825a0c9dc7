/** The facility card of the find-hospitals page (components/HospitalCard.tsx):
    the status badge, the address line, and the Call and Book buttons. */
module HospitalCard {
  import opened Common
  import opened Strings

  /** `HospitalItem` */
  datatype Item = Item(
    id: string,
    name: string,
    address: Option<string>,
    city: Option<string>,
    state: Option<string>,
    phone: Option<string>,
    status: Option<Status>)

  /** What the card shows and does. `callHref` is `None` for a disabled Call
      button; `booked` is what the Book button hands to `onBook`. */
  datatype View = View(
    status: Status,
    addressLine: Option<string>,
    callHref: Option<string>,
    bookDisabled: bool,
    booked: Option<Item>)

  /** The address, city and state that are set, joined by ", ". */
  function AddressLine(d: Item): string {
    Join(Present([d.address, d.city, d.state]), ", ")
  }

  function Render(d: Item, hasOnBook: bool): (v: View)
    ensures v.status == d.status.GetOr(Available)
    ensures v.addressLine.Some? <==> Truthy(d.address) || Truthy(d.city) || Truthy(d.state)
    ensures v.addressLine.Some? ==> v.addressLine.value == AddressLine(d)
    ensures v.callHref.Some? <==> Truthy(d.phone)
    ensures v.callHref.Some? ==> v.callHref.value == "tel:" + d.phone.value
    ensures !v.bookDisabled
    ensures v.booked == if hasOnBook then Some(d) else None
  {
    View(
      status := d.status.GetOr(Available),
      addressLine := if Truthy(d.address) || Truthy(d.city) || Truthy(d.state) then Some(AddressLine(d)) else None,
      callHref := if Truthy(d.phone) then Some("tel:" + d.phone.value) else None,
      bookDisabled := false,
      booked := if hasOnBook then Some(d) else None)
  }

  /** The address line is empty exactly when none of the three parts is
      set, so the line is shown exactly when it has something in it. */
  lemma AddressLineShownIffNonEmpty(d: Item)
    ensures AddressLine(d) != "" <==> Truthy(d.address) || Truthy(d.city) || Truthy(d.state)
  {
    var parts := [d.address, d.city, d.state];
    JoinEmptyIff(Present(parts), ", ");
    assert Truthy(d.address) ==> Truthy(parts[0]);
    assert Truthy(d.city) ==> Truthy(parts[1]);
    assert Truthy(d.state) ==> Truthy(parts[2]);
  }

  /** Every part that is set is among the parts the line joins. */
  lemma AddressLineHasParts(d: Item, x: string)
    requires || (Truthy(d.address) && x == d.address.value)
             || (Truthy(d.city) && x == d.city.value)
             || (Truthy(d.state) && x == d.state.value)
    ensures x in Present([d.address, d.city, d.state])
  {
    var parts := [d.address, d.city, d.state];
    if Truthy(d.address) && x == d.address.value {
      assert Truthy(parts[0]) && parts[0].value == x;
    } else if Truthy(d.city) && x == d.city.value {
      assert Truthy(parts[1]) && parts[1].value == x;
    } else {
      assert Truthy(parts[2]) && parts[2].value == x;
    }
  }
}
