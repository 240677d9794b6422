/**
 * The seeding endpoint: empty the three collections, create each seed
 * route after its own stops, then create the buses pointing at the created
 * routes, and report the counts. Each bus is stamped with its own reading
 * of the clock, taken after the previous bus was stored: `clock(i)` is the
 * time `new Date()` returns for bus `i`.
 */
module Seed {
  import opened Wrappers
  import opened Domain
  import opened Store

  datatype SeedRoute = SeedRoute(name: string, number: string, stops: seq<StopInput>)
  datatype SeedBus = SeedBus(number: string, lat: real, lng: real, status: BusStatus, driver: string)
  datatype Report = Report(routes: nat, stops: nat, buses: nat)

  function P(name: string, lat: real, lng: real, city: CityType): StopInput {
    StopInput(name, lat, lng, None, Some(city))
  }

  const MainStreetLine := SeedRoute("Main Street Line", "101", [
    P("City Bus Terminal", 34.0522, -118.2437, 1),
    P("Central Market", 34.056, -118.242, 1),
    P("Government Hospital", 34.062, -118.238, 2),
    P("Town Hall", 34.053, -118.244, 1)])

  const IndustrialAreaShuttle := SeedRoute("Industrial Area Shuttle", "202", [
    P("West End Shopping Center", 34.04, -118.26, 2),
    P("University Campus", 34.03, -118.27, 2),
    P("Technology Park", 34.02, -118.28, 3),
    P("Eastside Junction", 34.01, -118.29, 3)])

  const SuburbConnector := SeedRoute("Suburb Connector", "303", [
    P("North Residential Area", 34.07, -118.22, 3),
    P("Community College", 34.075, -118.21, 2),
    P("Public Library", 34.08, -118.20, 2),
    P("South Park", 34.085, -118.19, 3)])

  const SeedRoutes: seq<SeedRoute> := [MainStreetLine, IndustrialAreaShuttle, SuburbConnector]

  const SeedBuses: seq<SeedBus> := [
    SeedBus("B-1011", 34.054, -118.243, Active, "Anil Kumar"),
    SeedBus("B-1012", 34.06, -118.239, Delayed, "Sunita Sharma"),
    SeedBus("B-2021", 34.035, -118.265, Active, "Rajesh Singh"),
    SeedBus("B-3031", 34.078, -118.205, Idle, "Priya Verma"),
    SeedBus("B-2022", 34.015, -118.285, Maintenance, "Sanjay Gupta")
  ]

  /** The index the loop computes: the first two buses to route 0, the next two to route 1, the rest to route 2. */
  function RouteIndex(i: nat): nat {
    if i < 2 then 0 else if i < 4 then 1 else 2
  }

  /** The index actually used: bus 4 is sent to route 1 instead. */
  function AssignedRouteIndex(i: nat): (k: nat)
    ensures k < 3
  {
    if i == 4 then 1 else RouteIndex(i)
  }

  /** Only routes 0 and 1 receive seed buses; route "303" gets none. */
  lemma AssignmentCoversFirstTwoRoutes()
    ensures forall i :: 0 <= i < |SeedBuses| ==> AssignedRouteIndex(i) < 2
    ensures forall i :: 0 <= i < |SeedBuses| ==> (AssignedRouteIndex(i) == 0 <==> i < 2)
    ensures RouteIndex(4) == 2 && AssignedRouteIndex(4) == 1
  {
  }

  /** Creates the stops in order, each with a fresh id. */
  function CreateStops(db: Db, inputs: seq<StopInput>): (out: (Db, seq<nat>))
    ensures |out.1| == |inputs|
    ensures |out.0.stops| == |db.stops| + |inputs| && db.stops <= out.0.stops
    ensures forall k :: 0 <= k < |inputs| ==>
      out.1[k] == db.nextId + k && out.0.stops[|db.stops| + k] == StopDoc(db.nextId + k, inputs[k])
    ensures out.0.routes == db.routes && out.0.buses == db.buses
    ensures out.0.nextId == db.nextId + |inputs|
    decreases |inputs|
  {
    if inputs == [] then (db, [])
    else
      var (db1, id) := CreateStop(db, inputs[0]);
      var (db2, ids) := CreateStops(db1, inputs[1..]);
      assert forall k :: 1 <= k < |inputs| ==> inputs[1..][k - 1] == inputs[k];
      (db2, [id] + ids)
  }

  /** A created route's stop references name exactly its own stops, in seed order. */
  ghost predicate RouteHoldsStops(db: Db, r: RouteDoc, stops: seq<StopInput>) {
    |r.stops| == |stops| && forall j :: 0 <= j < |stops| ==> StopDoc(r.stops[j], stops[j]) in db.stops
  }

  /** Every document from position `from` on has an id at least `low`. */
  ghost predicate FreshFrom(stops: seq<StopDoc>, from: nat, low: nat) {
    forall m :: from <= m < |stops| ==> stops[m].id >= low
  }

  function TotalStops(rs: seq<SeedRoute>): nat {
    if rs == [] then 0 else |rs[0].stops| + TotalStops(rs[1..])
  }

  /** Creates each route after its own stops; returns the created route documents in order. */
  function CreateRoutes(db: Db, rs: seq<SeedRoute>): (out: (Db, seq<RouteDoc>))
    ensures |out.1| == |rs|
    ensures out.0.routes == db.routes + out.1
    ensures db.stops <= out.0.stops && |out.0.stops| == |db.stops| + TotalStops(rs)
    ensures out.0.buses == db.buses
    ensures out.0.nextId >= db.nextId
    ensures forall k :: 0 <= k < |rs| ==> out.1[k].name == rs[k].name && out.1[k].number == rs[k].number
    decreases |rs|
  {
    if rs == [] then (db, [])
    else
      var (db1, sids) := CreateStops(db, rs[0].stops);
      var (db2, rid) := CreateRoute(db1, rs[0].name, rs[0].number, sids);
      var (db3, docs) := CreateRoutes(db2, rs[1..]);
      assert forall k :: 1 <= k < |rs| ==> rs[1..][k - 1] == rs[k];
      (db3, [RouteDoc(rid, rs[0].name, rs[0].number, sids)] + docs)
  }

  /** Each created route lists exactly the ids of its own stops, in seed order. */
  lemma {:induction false} CreatedRoutesHoldStops(db: Db, rs: seq<SeedRoute>)
    ensures var out := CreateRoutes(db, rs);
      forall k :: 0 <= k < |rs| ==> RouteHoldsStops(out.0, out.1[k], rs[k].stops)
    decreases |rs|
  {
    if rs != [] {
      var (db1, sids) := CreateStops(db, rs[0].stops);
      var (db2, rid) := CreateRoute(db1, rs[0].name, rs[0].number, sids);
      var (db3, docs) := CreateRoutes(db2, rs[1..]);
      CreatedRoutesHoldStops(db2, rs[1..]);
      FirstRouteHoldsStops(db, db1, db3, sids, rs[0].stops);
      var out := CreateRoutes(db, rs);
      assert out == (db3, [RouteDoc(rid, rs[0].name, rs[0].number, sids)] + docs);
      forall k | 0 <= k < |rs|
        ensures RouteHoldsStops(out.0, out.1[k], rs[k].stops)
      {
        if k > 0 {
          assert rs[k] == rs[1..][k - 1] && out.1[k] == docs[k - 1];
        }
      }
    }
  }

  lemma FirstRouteHoldsStops(db: Db, db1: Db, db3: Db, sids: seq<nat>, stops: seq<StopInput>)
    requires (db1, sids) == CreateStops(db, stops)
    requires db1.stops <= db3.stops
    ensures forall j :: 0 <= j < |stops| ==> StopDoc(sids[j], stops[j]) in db3.stops
  {
    forall j | 0 <= j < |stops|
      ensures StopDoc(sids[j], stops[j]) in db3.stops
    {
      assert db3.stops[|db.stops| + j] == db1.stops[|db.stops| + j];
    }
  }

  /** Everything created gets a fresh id, and route ids increase in creation order. */
  lemma {:induction false} CreatedRoutesFresh(db: Db, rs: seq<SeedRoute>)
    ensures var out := CreateRoutes(db, rs);
      && (forall k :: 0 <= k < |rs| ==> out.1[k].id >= db.nextId)
      && (forall a, b :: 0 <= a < b < |rs| ==> out.1[a].id < out.1[b].id)
      && FreshFrom(out.0.stops, |db.stops|, db.nextId)
    decreases |rs|
  {
    if rs != [] {
      var (db1, sids) := CreateStops(db, rs[0].stops);
      var (db2, rid) := CreateRoute(db1, rs[0].name, rs[0].number, sids);
      var (db3, docs) := CreateRoutes(db2, rs[1..]);
      CreatedRoutesFresh(db2, rs[1..]);
      FreshAcrossRoute(db, db1, db3, rs[0].stops);
      var out := CreateRoutes(db, rs);
      assert out == (db3, [RouteDoc(rid, rs[0].name, rs[0].number, sids)] + docs);
      assert forall k :: 1 <= k < |rs| ==> out.1[k] == docs[k - 1];
    }
  }

  lemma FreshAcrossRoute(db: Db, db1: Db, db3: Db, stops: seq<StopInput>)
    requires db1 == CreateStops(db, stops).0
    requires db1.stops <= db3.stops
    requires FreshFrom(db3.stops, |db1.stops|, db1.nextId)
    ensures FreshFrom(db3.stops, |db.stops|, db.nextId)
  {
    forall m | |db.stops| <= m < |db3.stops|
      ensures db3.stops[m].id >= db.nextId
    {
      if m < |db1.stops| {
        var k := m - |db.stops|;
        assert db3.stops[m] == db1.stops[m];
        assert db1.stops[|db.stops| + k] == StopDoc(db.nextId + k, stops[k]);
      } else {
        assert db3.stops[m].id >= db1.nextId;
      }
    }
  }

  /** Bus document `b` was created from seed bus `s` on `route` at time `stamp`. */
  ghost predicate SeededBus(b: BusDoc, route: RouteDoc, s: SeedBus, stamp: string) {
    && b.routeId == route.id
    && b.number == s.number && b.driver == s.driver && b.status == s.status
    && b.lat == s.lat && b.lng == s.lng && b.lastUpdated == stamp
  }

  /** Creates bus `i` onwards, bus `i` on the route at its assigned index. */
  function CreateBuses(db: Db, routes: seq<RouteDoc>, bs: seq<SeedBus>, i: nat, clock: nat -> string): (out: Db)
    requires |routes| == 3
    requires i <= |bs|
    ensures out.stops == db.stops && out.routes == db.routes
    ensures |out.buses| == |db.buses| + |bs| - i
    ensures db.buses <= out.buses
    ensures forall j :: i <= j < |bs| ==>
      SeededBus(out.buses[|db.buses| + j - i], routes[AssignedRouteIndex(j)], bs[j], clock(j))
    ensures forall j :: |db.buses| <= j < |out.buses| ==> out.buses[j].id >= db.nextId
    decreases |bs| - i
  {
    if i == |bs| then db
    else
      var s := bs[i];
      var route := routes[AssignedRouteIndex(i)];
      var (db1, _) := CreateBus(db, BusDoc(0, s.number, route.id, s.lat, s.lng, s.status, s.driver, clock(i)));
      var out := CreateBuses(db1, routes, bs, i + 1, clock);
      assert out.buses[|db.buses|] == db1.buses[|db.buses|];
      out
  }

  /**
   * The seeding handler over given seed data: delete every bus, route and
   * stop, then insert the routes (each after its stops) and the buses.
   */
  function SeedWith(db: Db, rs: seq<SeedRoute>, bs: seq<SeedBus>, clock: nat -> string): (out: (Db, Report))
    requires |rs| == 3
    ensures out.1 == Report(|out.0.routes|, |out.0.stops|, |out.0.buses|)
    ensures |out.0.routes| == |rs| && |out.0.buses| == |bs| && |out.0.stops| == TotalStops(rs)
    ensures forall k :: 0 <= k < |rs| ==> out.0.routes[k].name == rs[k].name && out.0.routes[k].number == rs[k].number
    ensures forall i :: 0 <= i < |bs| ==> SeededBus(out.0.buses[i], out.0.routes[AssignedRouteIndex(i)], bs[i], clock(i))
  {
    var created := CreateRoutes(Db([], [], [], db.nextId), rs);
    var db2 := CreateBuses(created.0, created.1, bs, 0, clock);
    (db2, Report(|db2.routes|, |db2.stops|, |db2.buses|))
  }

  /**
   * Seeding replaces the previous contents: every document has an id from
   * the counter onwards, so none of the old documents survives.
   */
  lemma SeedReplacesContents(db: Db, rs: seq<SeedRoute>, bs: seq<SeedBus>, clock: nat -> string)
    requires |rs| == 3
    ensures var db' := SeedWith(db, rs, bs, clock).0;
      && (forall m :: 0 <= m < |db'.stops| ==> db'.stops[m].id >= db.nextId)
      && (forall k :: 0 <= k < |db'.routes| ==> db'.routes[k].id >= db.nextId)
      && (forall i :: 0 <= i < |db'.buses| ==> db'.buses[i].id >= db.nextId)
      && (forall a, b :: 0 <= a < b < |db'.routes| ==> db'.routes[a].id < db'.routes[b].id)
  {
    FreshFromEmpty(db.nextId, rs);
    SeedKeepsCreated(db, rs, bs, clock);
    SeedBusesFresh(db, rs, bs, clock);
  }

  /** The seeded stops and routes are those `CreateRoutes` made from an emptied store. */
  lemma SeedKeepsCreated(db: Db, rs: seq<SeedRoute>, bs: seq<SeedBus>, clock: nat -> string)
    requires |rs| == 3
    ensures var created := CreateRoutes(Db([], [], [], db.nextId), rs);
      var db' := SeedWith(db, rs, bs, clock).0;
      db'.routes == created.1 && db'.stops == created.0.stops
  {
    var created := CreateRoutes(Db([], [], [], db.nextId), rs);
    assert created.0.routes == [] + created.1 == created.1;
  }

  lemma SeedBusesFresh(db: Db, rs: seq<SeedRoute>, bs: seq<SeedBus>, clock: nat -> string)
    requires |rs| == 3
    ensures var db' := SeedWith(db, rs, bs, clock).0;
      forall i :: 0 <= i < |db'.buses| ==> db'.buses[i].id >= db.nextId
  {
    var created := CreateRoutes(Db([], [], [], db.nextId), rs);
    var db' := CreateBuses(created.0, created.1, bs, 0, clock);
    assert SeedWith(db, rs, bs, clock).0 == db';
    assert created.0.buses == [] && created.0.nextId >= db.nextId;
    assert forall i :: 0 <= i < |db'.buses| ==> db'.buses[i].id >= created.0.nextId;
  }

  lemma FreshFromEmpty(n: nat, rs: seq<SeedRoute>)
    ensures var created := CreateRoutes(Db([], [], [], n), rs);
      && (forall m :: 0 <= m < |created.0.stops| ==> created.0.stops[m].id >= n)
      && (forall k :: 0 <= k < |created.1| ==> created.1[k].id >= n)
      && (forall a, b :: 0 <= a < b < |created.1| ==> created.1[a].id < created.1[b].id)
  {
    CreatedRoutesFresh(Db([], [], [], n), rs);
  }

  /** Each seeded route lists exactly its own seed stops, in seed order. */
  lemma SeedRoutesHoldOwnStops(db: Db, rs: seq<SeedRoute>, bs: seq<SeedBus>, clock: nat -> string)
    requires |rs| == 3
    ensures var db' := SeedWith(db, rs, bs, clock).0;
      forall k :: 0 <= k < |rs| ==> RouteHoldsStops(db', db'.routes[k], rs[k].stops)
  {
    CreatedRoutesHoldStops(Db([], [], [], db.nextId), rs);
    SeedKeepsCreated(db, rs, bs, clock);
  }

  /** The endpoint itself, on the fixed seed data. */
  function SeedDatabase(db: Db, clock: nat -> string): (out: (Db, Report))
  {
    SeedWith(db, SeedRoutes, SeedBuses, clock)
  }

  lemma SeedStopTotal()
    ensures TotalStops(SeedRoutes) == 12
  {
    assert TotalStops([SuburbConnector]) == 4 by {
      assert [SuburbConnector][1..] == [];
    }
    assert TotalStops([IndustrialAreaShuttle, SuburbConnector]) == 8 by {
      assert [IndustrialAreaShuttle, SuburbConnector][1..] == [SuburbConnector];
    }
    assert SeedRoutes[1..] == [IndustrialAreaShuttle, SuburbConnector];
  }

  /** The reported counts: 3 routes, 12 stops and 5 buses. */
  lemma SeedReportCounts(db: Db, clock: nat -> string)
    ensures SeedDatabase(db, clock).1 == Report(3, 12, 5)
  {
    SeedStopTotal();
  }

  /** With at most five buses, the third route gets none of them. */
  lemma ThirdRouteGetsNoBus(db: Db, rs: seq<SeedRoute>, bs: seq<SeedBus>, clock: nat -> string)
    requires |rs| == 3 && |bs| <= 5
    ensures var db' := SeedWith(db, rs, bs, clock).0;
      forall i :: 0 <= i < |db'.buses| ==> db'.buses[i].routeId != db'.routes[2].id
  {
    SeedReplacesContents(db, rs, bs, clock);
    var db' := SeedWith(db, rs, bs, clock).0;
    forall i | 0 <= i < |db'.buses|
      ensures db'.buses[i].routeId != db'.routes[2].id
    {
      assert AssignedRouteIndex(i) < 2;
      assert db'.buses[i].routeId == db'.routes[AssignedRouteIndex(i)].id;
    }
  }

  /** No seeded bus runs on route "303". */
  lemma NoBusOnRoute303(db: Db, clock: nat -> string)
    ensures var db' := SeedDatabase(db, clock).0;
      db'.routes[2].number == "303"
      && forall i :: 0 <= i < |db'.buses| ==> db'.buses[i].routeId != db'.routes[2].id
  {
    ThirdRouteGetsNoBus(db, SeedRoutes, SeedBuses, clock);
    assert SeedRoutes[2].number == "303";
  }
}
