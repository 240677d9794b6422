/**
 * The live map's camera logic: where it starts, where the pan effect moves
 * it, what a marker click does, and the colour of bus markers. The map
 * widget itself is represented by the commands sent to it.
 */
module LiveMap {
  import opened Wrappers
  import opened Domain

  datatype LatLng = LatLng(lat: real, lng: real)

  /** A command sent to the map instance. */
  datatype MapCommand = PanTo(target: LatLng) | SetZoom(level: real)

  const DefaultCenter := LatLng(34.0522, -118.2437)
  const DefaultZoom: real := 14.0

  /** A zoom prop JavaScript treats as true: present and not zero. */
  predicate ZoomGiven(zoom: Option<real>) {
    zoom.Some? && zoom.value != 0.0
  }

  /** The map's starting center: `center || userLocation || defaultCenter`. */
  function InitialCenter(center: Option<LatLng>, userLocation: Option<LatLng>): (c: LatLng)
    ensures center.Some? ==> c == center.value
    ensures center.None? && userLocation.Some? ==> c == userLocation.value
    ensures center.None? && userLocation.None? ==> c == DefaultCenter
  {
    if center.Some? then center.value
    else if userLocation.Some? then userLocation.value
    else DefaultCenter
  }

  /** The map's starting zoom: `zoom || 14`. */
  function InitialZoom(zoom: Option<real>): (z: real)
    ensures ZoomGiven(zoom) ==> z == zoom.value
    ensures !ZoomGiven(zoom) ==> z == DefaultZoom
  {
    if ZoomGiven(zoom) then zoom.value else DefaultZoom
  }

  function Position(b: Bus): LatLng {
    LatLng(b.lat, b.lng)
  }

  /**
   * The pan effect: with a center, pan there (and zoom when a zoom is
   * given); with neither center nor user location, pan to the first bus;
   * with only a user location, pan there. Nothing happens without a map.
   */
  function PanEffect(hasMap: bool, center: Option<LatLng>, zoom: Option<real>, buses: seq<Bus>, userLocation: Option<LatLng>): (cmds: seq<MapCommand>)
    ensures !hasMap ==> cmds == []
    ensures hasMap && center.Some? ==> cmds != [] && cmds[0] == PanTo(center.value)
    ensures hasMap && center.Some? ==> (|cmds| == 2 <==> ZoomGiven(zoom)) && (|cmds| == 2 ==> cmds[1] == SetZoom(zoom.value))
    ensures hasMap && center.None? && userLocation.None? && buses != [] ==> cmds == [PanTo(Position(buses[0]))]
    ensures hasMap && center.None? && userLocation.Some? ==> cmds == [PanTo(userLocation.value)]
    ensures cmds == [] <==> !hasMap || (center.None? && userLocation.None? && buses == [])
  {
    if hasMap && center.Some? then
      [PanTo(center.value)] + (if ZoomGiven(zoom) then [SetZoom(zoom.value)] else [])
    else if hasMap && |buses| > 0 && center.None? && userLocation.None? then
      [PanTo(Position(buses[0]))]
    else if hasMap && userLocation.Some? && center.None? then
      [PanTo(userLocation.value)]
    else []
  }

  /**
   * When a center or a user location is given, the effect pans to exactly
   * the point the map started at, and any zoom it sets is the starting zoom.
   */
  lemma PanAgreesWithInitialView(center: Option<LatLng>, zoom: Option<real>, buses: seq<Bus>, userLocation: Option<LatLng>)
    requires center.Some? || userLocation.Some?
    ensures var cmds := PanEffect(true, center, zoom, buses, userLocation);
      && cmds != [] && cmds[0] == PanTo(InitialCenter(center, userLocation))
      && forall i :: 0 <= i < |cmds| && cmds[i].SetZoom? ==> cmds[i].level == InitialZoom(zoom)
  {
  }

  /** Buses matter to the effect only when there is neither a center nor a user location. */
  lemma PanIgnoresBusesWhenPlaced(center: Option<LatLng>, zoom: Option<real>, a: seq<Bus>, b: seq<Bus>, userLocation: Option<LatLng>, hasMap: bool)
    requires center.Some? || userLocation.Some?
    ensures PanEffect(hasMap, center, zoom, a, userLocation) == PanEffect(hasMap, center, zoom, b, userLocation)
  {
  }

  const DelayedColor := "#f43f5e"
  const NormalColor := "#8b5cf6"

  /** A bus marker's fill colour. */
  function MarkerColor(b: Bus): (c: string)
    ensures c == DelayedColor <==> b.status == Delayed
    ensures c == NormalColor <==> b.status != Delayed
  {
    if b.status == Delayed then DelayedColor else NormalColor
  }

  datatype Marker = BusMarker(bus: Bus) | StopMarker(stop: Stop)

  function MarkerPosition(m: Marker): LatLng {
    match m
    case BusMarker(b) => Position(b)
    case StopMarker(s) => LatLng(s.lat, s.lng)
  }

  /** `handleMarkerClick`: the clicked marker becomes active, and the map pans to it when there is one. */
  function HandleMarkerClick(hasMap: bool, m: Marker): (out: (Option<Marker>, seq<MapCommand>))
    ensures out.0 == Some(m)
    ensures hasMap ==> out.1 == [PanTo(MarkerPosition(m))]
    ensures !hasMap ==> out.1 == []
  {
    (Some(m), if hasMap then [PanTo(MarkerPosition(m))] else [])
  }
}
