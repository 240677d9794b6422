/**
 * The static fallback fleet, the fetch-or-fallback accessors and the
 * lookups by id.
 */
module FleetData {
  import opened Wrappers
  import opened Domain
  import opened Seqs
  import DbService

  function S(id: string, name: string, lat: real, lng: real, city: CityType): Stop {
    Stop(id, name, lat, lng, None, Some(city))
  }

  const FallbackRoutes: seq<Route> := [
    Route("route-1", "Main Street Line", "101", [
      S("stop-1-1", "City Bus Terminal", 34.0522, -118.2437, 1),
      S("stop-1-2", "Central Market", 34.056, -118.242, 1),
      S("stop-1-3", "Government Hospital", 34.062, -118.238, 2),
      S("stop-1-4", "Town Hall", 34.053, -118.244, 1),
      S("stop-in-1", "Gateway of India Terminal", 18.922, 72.834, 1),
      S("stop-in-2", "Marine Drive Loop", 18.943, 72.823, 1)]),
    Route("route-2", "Industrial Area Shuttle", "202", [
      S("stop-2-1", "West End Shopping Center", 34.04, -118.26, 2),
      S("stop-in-3", "Bandra Kurla Complex", 19.062, 72.863, 2),
      S("stop-in-4", "Andheri East Station", 19.119, 72.846, 2)]),
    Route("route-3", "Suburb Connector", "303", [
      S("stop-3-1", "North Residential Area", 34.07, -118.22, 3),
      S("stop-3-2", "Community College", 34.075, -118.21, 2),
      S("stop-3-3", "Public Library", 34.08, -118.20, 2),
      S("stop-3-4", "South Park", 34.085, -118.19, 3)])
  ]

  /** The fallback buses; `now` is the module's load time, stamped on every bus. */
  function FallbackBuses(now: string): seq<Bus> {
    [
      Bus("bus-1", "B-1011", "route-1", 34.054, -118.243, Active, "Anil Kumar", now),
      Bus("bus-2", "B-1012", "route-1", 34.06, -118.239, Delayed, "Sunita Sharma", now),
      Bus("bus-3", "B-2021", "route-2", 34.035, -118.265, Active, "Rajesh Singh", now),
      Bus("bus-4", "B-3031", "route-3", 34.078, -118.205, Idle, "Priya Verma", now),
      Bus("bus-5", "B-2022", "route-2", 34.015, -118.285, Maintenance, "Sanjay Gupta", now)
    ]
  }

  /** The exported `routes` and `buses` are the fallback arrays themselves. */
  const Routes: seq<Route> := FallbackRoutes

  function Buses(now: string): seq<Bus> {
    FallbackBuses(now)
  }

  /**
   * `getRoutes`: the fetched routes when the fetch returned a non-empty
   * list; the fallback routes when it returned nothing or threw (`None`).
   */
  function GetRoutes(fetched: Option<seq<Route>>): (r: seq<Route>)
    ensures fetched.Some? && fetched.value != [] ==> r == fetched.value
    ensures fetched.None? || fetched.value == [] ==> r == FallbackRoutes
    ensures r != []
  {
    match fetched
    case Some(rs) => if |rs| > 0 then rs else FallbackRoutes
    case None => FallbackRoutes
  }

  /** `getBusesData`: the same rule for buses. */
  function GetBusesData(fetched: Option<seq<Bus>>, now: string): (r: seq<Bus>)
    ensures fetched.Some? && fetched.value != [] ==> r == fetched.value
    ensures fetched.None? || fetched.value == [] ==> r == FallbackBuses(now)
    ensures r != []
  {
    match fetched
    case Some(bs) => if |bs| > 0 then bs else FallbackBuses(now)
    case None => FallbackBuses(now)
  }

  /** `getRouteById`: the first fallback route with this id. */
  function GetRouteById(id: string): (r: Option<Route>)
    ensures r.Some? ==> r.value in FallbackRoutes && r.value.id == id
    ensures r.None? <==> forall j :: 0 <= j < |FallbackRoutes| ==> FallbackRoutes[j].id != id
  {
    Find(FallbackRoutes, (x: Route) => x.id == id)
  }

  /** `getBusById`: the first fallback bus with this id. */
  function GetBusById(id: string, now: string): (r: Option<Bus>)
    ensures r.Some? ==> r.value in FallbackBuses(now) && r.value.id == id
    ensures r.None? <==> forall j :: 0 <= j < |FallbackBuses(now)| ==> FallbackBuses(now)[j].id != id
  {
    Find(FallbackBuses(now), (x: Bus) => x.id == id)
  }

  /** Every fallback bus names an existing fallback route. */
  lemma FallbackReferentialIntegrity(now: string)
    ensures forall b :: b in FallbackBuses(now) ==> GetRouteById(b.routeId).Some?
  {
    var rs := FallbackRoutes;
    assert rs[0].id == "route-1" && rs[1].id == "route-2" && rs[2].id == "route-3";
  }

  /** Route ids, route numbers and bus ids of the fallback data are pairwise distinct. */
  lemma FallbackKeysDistinct(now: string)
    ensures forall i, j :: 0 <= i < j < |FallbackRoutes| ==> FallbackRoutes[i].id != FallbackRoutes[j].id
    ensures forall i, j :: 0 <= i < j < |FallbackRoutes| ==> FallbackRoutes[i].number != FallbackRoutes[j].number
    ensures forall i, j :: 0 <= i < j < |FallbackBuses(now)| ==> FallbackBuses(now)[i].id != FallbackBuses(now)[j].id
  {
  }

  /** Each fallback id finds the record that carries it. */
  lemma LookupFindsFallbacks(now: string)
    ensures forall r :: r in FallbackRoutes ==> GetRouteById(r.id) == Some(r)
    ensures forall b :: b in FallbackBuses(now) ==> GetBusById(b.id, now) == Some(b)
  {
    FallbackKeysDistinct(now);
    forall r | r in FallbackRoutes
      ensures GetRouteById(r.id) == Some(r)
    {
      var k :| 0 <= k < |FallbackRoutes| && FallbackRoutes[k] == r;
      FirstMatchUnique(FallbackRoutes, (x: Route) => x.id == r.id, k);
    }
    forall b | b in FallbackBuses(now)
      ensures GetBusById(b.id, now) == Some(b)
    {
      var bs := FallbackBuses(now);
      var k :| 0 <= k < |bs| && bs[k] == b;
      FirstMatchUnique(bs, (x: Bus) => x.id == b.id, k);
    }
  }
  /**
   * The database fetchers never throw: they report failure as an empty
   * list, which `getRoutes` turns into the fallback routes. A successful,
   * non-empty response is shown as mapped.
   */
  lemma RoutesFromServer(f: DbService.Fetched<DbService.RawRoute>)
    ensures DbService.SuccessData(f).None? ==> GetRoutes(Some(DbService.GetRoutesServer(f))) == FallbackRoutes
    ensures DbService.SuccessData(f).Some? && DbService.SuccessData(f).value != [] ==>
      GetRoutes(Some(DbService.GetRoutesServer(f))) == DbService.GetRoutesServer(f)
  {
  }
}
