/**
 * The client-side fetchers that turn the API's document responses into
 * domain records. A fetch is a parameter: a network failure, or a response
 * with its `ok` flag and parsed JSON body (`None` when the body is not JSON).
 * `now` stands for `new Date().toISOString()` at mapping time.
 */
module DbService {
  import opened Wrappers
  import opened Domain

  /** The hexadecimal text of a document id, never empty. */
  type ObjectIdText = s: string | s != [] witness "0"

  datatype Payload<+D> = Payload(success: bool, data: seq<D>)

  datatype Fetched<+D> = NetworkError | Response(ok: bool, body: Option<Payload<D>>)

  /** A stop document: `_id` may be missing on a nested stop, which may carry an `id` of its own. */
  datatype RawStop = RawStop(
    oid: Option<ObjectIdText>,
    id: string,
    name: string,
    lat: real,
    lng: real,
    eta: Option<string>,
    cityType: Option<CityType>)

  datatype RawRoute = RawRoute(oid: ObjectIdText, name: string, number: string, stops: seq<RawStop>)

  /** A bus's `routeId`: a populated route document, or the bare reference. */
  datatype RawRouteRef = PopulatedRoute(routeOid: ObjectIdText) | RouteReference(refText: ObjectIdText)

  datatype RawBus = RawBus(
    oid: ObjectIdText,
    number: string,
    routeId: RawRouteRef,
    lat: real,
    lng: real,
    status: BusStatus,
    driver: string,
    lastUpdated: Option<string>,
    updatedAt: Option<string>)

  /** The documents of a successful response, or `None` when the fetcher must answer `[]`. */
  function SuccessData<D>(f: Fetched<D>): (r: Option<seq<D>>)
    ensures r.Some? <==> f.Response? && f.ok && f.body.Some? && f.body.value.success
    ensures r.Some? ==> r.value == f.body.value.data
  {
    match f
    case NetworkError => None
    case Response(ok, body) =>
      if !ok then None
      else match body
        case None => None
        case Some(p) => if p.success then Some(p.data) else None
  }

  /** A stop nested in a route: its id is `_id` when present, otherwise its own `id`. */
  function MapNestedStop(s: RawStop): (r: Stop)
    ensures s.oid.Some? ==> r.id == s.oid.value
    ensures s.oid.None? ==> r.id == s.id
    ensures r.name == s.name && r.lat == s.lat && r.lng == s.lng && r.eta == s.eta && r.cityType == s.cityType
  {
    Stop(if s.oid.Some? then s.oid.value else s.id, s.name, s.lat, s.lng, s.eta, s.cityType)
  }

  function MapRoute(r: RawRoute): (out: Route)
    ensures out.id == r.oid && out.name == r.name && out.number == r.number
    ensures |out.stops| == |r.stops|
    ensures forall i :: 0 <= i < |r.stops| ==> out.stops[i] == MapNestedStop(r.stops[i])
  {
    Route(r.oid, r.name, r.number, seq(|r.stops|, i requires 0 <= i < |r.stops| => MapNestedStop(r.stops[i])))
  }

  /**
   * A bus: `routeId` is the populated route's `_id`, otherwise the reference's
   * text; `lastUpdated` falls back to `updatedAt`, then to `now`.
   */
  function MapBus(b: RawBus, now: string): (r: Bus)
    ensures r.id == b.oid && r.number == b.number && r.status == b.status && r.driver == b.driver
    ensures r.lat == b.lat && r.lng == b.lng
    ensures b.routeId.PopulatedRoute? ==> r.routeId == b.routeId.routeOid
    ensures b.routeId.RouteReference? ==> r.routeId == b.routeId.refText
    ensures Truthy(b.lastUpdated) ==> r.lastUpdated == b.lastUpdated.value
    ensures !Truthy(b.lastUpdated) && Truthy(b.updatedAt) ==> r.lastUpdated == b.updatedAt.value
    ensures !Truthy(b.lastUpdated) && !Truthy(b.updatedAt) ==> r.lastUpdated == now
  {
    var routeId := match b.routeId
      case PopulatedRoute(oid) => oid
      case RouteReference(text) => text;
    var stamp := OrElse(b.lastUpdated, OrElse(b.updatedAt, Some(now))).value;
    Bus(b.oid, b.number, routeId, b.lat, b.lng, b.status, b.driver, stamp)
  }

  /** `getRoutes`: the mapped routes of a successful response, in order; `[]` on any failure. */
  function GetRoutes(f: Fetched<RawRoute>): (r: seq<Route>)
    ensures SuccessData(f).None? ==> r == []
    ensures SuccessData(f).Some? ==>
      |r| == |SuccessData(f).value| && forall i :: 0 <= i < |r| ==> r[i] == MapRoute(SuccessData(f).value[i])
  {
    match SuccessData(f)
    case None => []
    case Some(data) => seq(|data|, i requires 0 <= i < |data| => MapRoute(data[i]))
  }

  /** `getRoutesServer`: answers `[]` itself on a response that is not ok, instead of throwing and catching. */
  function GetRoutesServer(f: Fetched<RawRoute>): (r: seq<Route>)
    ensures SuccessData(f).None? ==> r == []
    ensures SuccessData(f).Some? ==> |r| == |SuccessData(f).value|
  {
    match f
    case NetworkError => []
    case Response(ok, body) =>
      if !ok then []
      else match body
        case None => []
        case Some(p) =>
          if p.success then seq(|p.data|, i requires 0 <= i < |p.data| => MapRoute(p.data[i])) else []
  }

  /** Both route fetchers produce the same routes from the same fetch. */
  lemma RouteFetchersAgree(f: Fetched<RawRoute>)
    ensures GetRoutesServer(f) == GetRoutes(f)
  {
  }

  /**
   * `getBuses`: the mapped buses of a successful response, in order; `[]` on
   * any failure. The map callback reads the clock once per bus, so bus `i`
   * falls back to its own reading `clock(i)`.
   */
  function GetBuses(f: Fetched<RawBus>, clock: nat -> string): (r: seq<Bus>)
    ensures SuccessData(f).None? ==> r == []
    ensures SuccessData(f).Some? ==>
      |r| == |SuccessData(f).value| && forall i :: 0 <= i < |r| ==> r[i] == MapBus(SuccessData(f).value[i], clock(i))
  {
    match SuccessData(f)
    case None => []
    case Some(data) => seq(|data|, i requires 0 <= i < |data| => MapBus(data[i], clock(i)))
  }

  /** The query parameters of the stops request: `cityType` only when one is given. */
  function StopsQuery(cityType: Option<CityType>): (params: seq<(string, string)>)
    ensures cityType.None? ==> params == []
    ensures cityType.Some? ==> |params| == 1 && params[0].0 == "cityType"
    ensures cityType.Some? ==> |params[0].1| == 1 && params[0].1[0] as int - '0' as int == cityType.value
  {
    match cityType
    case None => []
    case Some(c) => [("cityType", [('0' as int + c) as char])]
  }

  /**
   * `getStops`: the stops of a successful response with their `_id` as id.
   * A stop without `_id` makes `toString` throw, and the catch answers `[]`.
   */
  function GetStops(f: Fetched<RawStop>): (r: seq<Stop>)
    ensures SuccessData(f).None? ==> r == []
    ensures SuccessData(f).Some? && (exists i :: 0 <= i < |SuccessData(f).value| && SuccessData(f).value[i].oid.None?) ==> r == []
    ensures SuccessData(f).Some? && (forall i :: 0 <= i < |SuccessData(f).value| ==> SuccessData(f).value[i].oid.Some?) ==>
      |r| == |SuccessData(f).value|
      && forall i :: 0 <= i < |r| ==> r[i] == MapNestedStop(SuccessData(f).value[i]) && r[i].id == SuccessData(f).value[i].oid.value
  {
    match SuccessData(f)
    case None => []
    case Some(data) =>
      if forall i :: 0 <= i < |data| ==> data[i].oid.Some? then
        seq(|data|, i requires 0 <= i < |data| => MapNestedStop(data[i]))
      else []
  }
}
