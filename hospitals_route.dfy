/** `GET /api/hospitals?city=` (app/api/hospitals/route.ts): at most fifty
    stored hospitals of the given city, in stored order. Read-only. */
module HospitalsRoute {
  import opened Common
  import opened Http
  import opened Store
  import opened Sequences

  const Limit: nat := 50

  predicate InCity(d: Doc, city: string) {
    "city" in d && d["city"] == Str(city)
  }

  /** `find({ city })`: the documents of that city, in stored order. */
  function InCityAll(hs: seq<Doc>, city: string): (r: seq<Doc>)
    ensures |r| <= |hs|
    ensures forall d :: d in r <==> d in hs && InCity(d, city)
  {
    if hs == [] then []
    else
      var init := InCityAll(hs[..|hs| - 1], city);
      assert hs == hs[..|hs| - 1] + [hs[|hs| - 1]];
      if InCity(hs[|hs| - 1], city) then init + [hs[|hs| - 1]] else init
  }

  lemma {:induction false} InCityAllIsSubsequence(hs: seq<Doc>, city: string)
    ensures IsSubsequence(InCityAll(hs, city), hs)
  {
    if hs != [] {
      var init := hs[..|hs| - 1];
      var h := hs[|hs| - 1];
      InCityAllIsSubsequence(init, city);
      var r := InCityAll(hs, city);
      if InCity(h, city) {
        assert r[..|r| - 1] == InCityAll(init, city);
      } else {
        SubsequenceDropLast(r, init, h);
        assert init + [h] == hs;
      }
    }
  }

  /** `.limit(50)` */
  function Take(s: seq<Doc>, n: nat): (r: seq<Doc>)
    ensures |r| == if |s| <= n then |s| else n
    ensures r == s[..|r|]
  {
    if |s| <= n then s else s[..n]
  }

  /** The reply. A missing city is refused before the database is used. */
  function Get(hospitals: seq<Doc>, online: bool, city: Option<string>): (r: Reply<seq<Doc>>)
    ensures !Truthy(city) ==> r == Fail(400, "city is required")
    ensures Truthy(city) && !online ==> r == Fail(500, "Database error")
    ensures Truthy(city) && online ==> r.status == 200 && r.body.Payload?
    ensures r.body.Payload? ==>
              && Truthy(city)
              && |r.body.value| <= Limit
              && (forall d :: d in r.body.value ==> d in hospitals && InCity(d, city.value))
              && |r.body.value| <= |InCityAll(hospitals, city.value)|
              && r.body.value == InCityAll(hospitals, city.value)[..|r.body.value|]
              && (|InCityAll(hospitals, city.value)| <= Limit ==> r.body.value == InCityAll(hospitals, city.value))
              && (|InCityAll(hospitals, city.value)| > Limit ==> |r.body.value| == Limit)
  {
    if !Truthy(city) then Fail(400, "city is required")
    else if !online then Fail(500, "Database error")
    else
      var all := InCityAll(hospitals, city.value);
      var r := Take(all, Limit);
      assert forall d :: d in r ==> d in all;
      Ok(r)
  }
}
