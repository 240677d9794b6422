/**
 * The application's domain records: stops, routes, buses and trip plans.
 * Coordinates are exact decimals compared only for equality; no coordinate
 * arithmetic is modelled.
 */
module Domain {
  import opened Wrappers

  /** A stop's city class: 1, 2 or 3. */
  type CityType = c: int | 1 <= c <= 3 witness 1

  datatype Stop = Stop(
    id: string,
    name: string,
    lat: real,
    lng: real,
    eta: Option<string>,
    cityType: Option<CityType>)

  datatype Route = Route(id: string, name: string, number: string, stops: seq<Stop>)

  /** The four statuses a bus document may have. */
  datatype BusStatus = Active | Idle | Delayed | Maintenance

  /** The status as stored and displayed: "active", "idle", "delayed" or "maintenance". */
  function StatusName(s: BusStatus): string {
    match s
    case Active => "active"
    case Idle => "idle"
    case Delayed => "delayed"
    case Maintenance => "maintenance"
  }

  /** Different statuses have different names, so filtering by name is filtering by status. */
  lemma StatusNameInjective(a: BusStatus, b: BusStatus)
    ensures StatusName(a) == StatusName(b) <==> a == b
  {
  }

  datatype Bus = Bus(
    id: string,
    number: string,
    routeId: string,
    lat: real,
    lng: real,
    status: BusStatus,
    driver: string,
    lastUpdated: string)

  datatype TripStep = TripStep(
    instruction: string,
    busNumber: Option<string>,
    departureStop: Option<string>,
    arrivalStop: Option<string>,
    departureTime: Option<string>,
    arrivalTime: Option<string>,
    description: Option<string>,
    landmark: Option<string>)

  /** The itinerary shown to the user; built by a server action outside this model. */
  datatype TripPlan = TripPlan(
    summary: Option<string>,
    steps: seq<TripStep>,
    totalTime: string,
    mapsUrl: Option<string>,
    debugPrompt: Option<string>,
    estimatedCost: Option<string>)
}
