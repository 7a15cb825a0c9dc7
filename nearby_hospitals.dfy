/** The nearby-hospitals page (app/nearby-hospitals/page.tsx): a fixed list
    of five facilities narrowed by a specialty filter and an emergency
    filter chosen from drop-downs. */
module NearbyHospitals {
  import opened Sequences

  datatype Facility = Facility(
    id: nat,
    name: string,
    distance: string,
    rating: real,
    waitTime: string,
    specialties: seq<string>,
    phone: string,
    available: bool,
    emergency: bool)

  /** The page's constant list. */
  const Facilities: seq<Facility> := [
    Facility(1, "City General Hospital", "0.8 km", 4.5, "15 min",
             ["General Medicine", "Emergency", "Pediatrics"], "+91 98765 43210", true, true),
    Facility(2, "Family Care Clinic", "1.2 km", 4.3, "25 min",
             ["Pediatrics", "General Medicine", "Dermatology"], "+91 98765 43211", true, false),
    Facility(3, "Metro Health Center", "2.1 km", 4.7, "45 min",
             ["Cardiology", "Orthopedics", "Neurology"], "+91 98765 43212", false, true),
    Facility(4, "Rural Health Post", "5.5 km", 3.9, "10 min",
             ["General Medicine", "Basic Care"], "+91 98765 43213", true, false),
    Facility(5, "Advanced Surgical Institute", "3.0 km", 4.8, "60 min",
             ["Surgery", "Oncology"], "+91 98765 43214", true, true)
  ]

  predicate MatchesSpecialty(h: Facility, specialty: string) {
    specialty == "all" || specialty in h.specialties
  }

  predicate MatchesEmergency(h: Facility, emergency: string) {
    emergency == "all" || (emergency == "yes" && h.emergency) || (emergency == "no" && !h.emergency)
  }

  predicate Shown(h: Facility, specialty: string, emergency: string) {
    MatchesSpecialty(h, specialty) && MatchesEmergency(h, emergency)
  }

  /** `filteredHospitals`: the facilities both filters accept, in the order
      of the list. */
  function Filtered(hs: seq<Facility>, specialty: string, emergency: string): (r: seq<Facility>)
    ensures |r| <= |hs|
    ensures forall h :: h in r <==> h in hs && Shown(h, specialty, emergency)
  {
    if hs == [] then []
    else
      var init := Filtered(hs[..|hs| - 1], specialty, emergency);
      var h := hs[|hs| - 1];
      assert hs == hs[..|hs| - 1] + [h];
      if Shown(h, specialty, emergency) then init + [h] else init
  }

  /** A facility appended to the list is appended to the result when both
      filters accept it. */
  lemma FilteredKeeps(hs: seq<Facility>, h: Facility, specialty: string, emergency: string)
    requires Shown(h, specialty, emergency)
    ensures Filtered(hs + [h], specialty, emergency) == Filtered(hs, specialty, emergency) + [h]
  {
    assert (hs + [h])[..|hs|] == hs;
  }

  /** A facility appended to the list leaves the result as it was when a
      filter rejects it. */
  lemma FilteredSkips(hs: seq<Facility>, h: Facility, specialty: string, emergency: string)
    requires !Shown(h, specialty, emergency)
    ensures Filtered(hs + [h], specialty, emergency) == Filtered(hs, specialty, emergency)
  {
    assert (hs + [h])[..|hs|] == hs;
  }

  /** Of five facilities of which the first, third and fifth offer an
      emergency service, "emergency: yes" keeps exactly those three. */
  lemma EmergencyOfFive(f0: Facility, f1: Facility, f2: Facility, f3: Facility, f4: Facility)
    requires f0.emergency && !f1.emergency && f2.emergency && !f3.emergency && f4.emergency
    ensures Filtered([f0, f1, f2, f3, f4], "all", "yes") == [f0, f2, f4]
  {
    var p0: seq<Facility> := [];
    var p1 := p0 + [f0];
    var p2 := p1 + [f1];
    var p3 := p2 + [f2];
    var p4 := p3 + [f3];
    var p5 := p4 + [f4];
    FilteredKeeps(p0, f0, "all", "yes");
    FilteredSkips(p1, f1, "all", "yes");
    FilteredKeeps(p2, f2, "all", "yes");
    FilteredSkips(p3, f3, "all", "yes");
    FilteredKeeps(p4, f4, "all", "yes");
    assert Filtered(p0, "all", "yes") == [];
    assert [] + [f0] + [f2] + [f4] == [f0, f2, f4];
    assert p5 == [f0, f1, f2, f3, f4];
  }

  /** On the page's list, "emergency: yes" shows City General Hospital,
      Metro Health Center and Advanced Surgical Institute, in that order. */
  lemma EmergencyFacilities()
    ensures Filtered(Facilities, "all", "yes") == [Facilities[0], Facilities[2], Facilities[4]]
    ensures Facilities[0].name == "City General Hospital" && Facilities[2].name == "Metro Health Center"
         && Facilities[4].name == "Advanced Surgical Institute"
  {
    var f := Facilities;
    assert f == [f[0], f[1], f[2], f[3], f[4]];
    EmergencyOfFive(f[0], f[1], f[2], f[3], f[4]);
  }

  /** Filtering keeps the original order. */
  lemma {:induction false} FilteredIsSubsequence(hs: seq<Facility>, specialty: string, emergency: string)
    ensures IsSubsequence(Filtered(hs, specialty, emergency), hs)
  {
    if hs != [] {
      var init := hs[..|hs| - 1];
      var h := hs[|hs| - 1];
      FilteredIsSubsequence(init, specialty, emergency);
      var r := Filtered(hs, specialty, emergency);
      if Shown(h, specialty, emergency) {
        assert r[..|r| - 1] == Filtered(init, specialty, emergency);
      } else {
        SubsequenceDropLast(r, init, h);
        assert init + [h] == hs;
      }
    }
  }

  /** With both filters on "all" every facility is shown. */
  lemma {:induction false} AllShowsEverything(hs: seq<Facility>)
    ensures Filtered(hs, "all", "all") == hs
  {
    if hs != [] {
      AllShowsEverything(hs[..|hs| - 1]);
      assert hs[..|hs| - 1] + [hs[|hs| - 1]] == hs;
    }
  }

  /** Every facility shown offers the chosen specialty. */
  lemma ShownOfferSpecialty(hs: seq<Facility>, specialty: string, emergency: string)
    requires specialty != "all"
    ensures forall h :: h in Filtered(hs, specialty, emergency) ==> specialty in h.specialties
  {
  }

  /** "yes" shows only emergency facilities and "no" only the others. */
  lemma EmergencyChoice(hs: seq<Facility>, specialty: string)
    ensures forall h :: h in Filtered(hs, specialty, "yes") ==> h.emergency
    ensures forall h :: h in Filtered(hs, specialty, "no") ==> !h.emergency
  {
  }

  /** Any emergency choice besides "all", "yes" and "no" shows nothing. */
  lemma {:induction false} UnknownEmergencyShowsNothing(hs: seq<Facility>, specialty: string, emergency: string)
    requires emergency != "all" && emergency != "yes" && emergency != "no"
    ensures Filtered(hs, specialty, emergency) == []
  {
    if hs != [] {
      UnknownEmergencyShowsNothing(hs[..|hs| - 1], specialty, emergency);
    }
  }

  /** The two filters act independently: the result is the specialty
      filter's result narrowed by the emergency filter. */
  lemma {:induction false} FiltersCompose(hs: seq<Facility>, specialty: string, emergency: string)
    ensures Filtered(hs, specialty, emergency) == Filtered(Filtered(hs, specialty, "all"), "all", emergency)
  {
    if hs != [] {
      var init := hs[..|hs| - 1];
      var h := hs[|hs| - 1];
      FiltersCompose(init, specialty, emergency);
      var s := Filtered(hs, specialty, "all");
      if MatchesSpecialty(h, specialty) {
        assert s[..|s| - 1] == Filtered(init, specialty, "all");
      }
    }
  }
}
