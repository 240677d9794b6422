/**
 * The document store behind the API handlers: stop, route and bus
 * collections with store-assigned ids. Ids are drawn from one counter, so a
 * new document's id is fresh.
 */
module Store {
  import opened Wrappers
  import opened Domain
  import opened Seqs

  /** A stop as posted or seeded. */
  datatype StopInput = StopInput(name: string, lat: real, lng: real, eta: Option<string>, cityType: Option<CityType>)

  /** The fields a stop is looked up by. */
  datatype StopKey = StopKey(name: string, lat: real, lng: real)

  function KeyOf(s: StopInput): StopKey {
    StopKey(s.name, s.lat, s.lng)
  }

  datatype StopDoc = StopDoc(id: nat, data: StopInput)
  datatype RouteDoc = RouteDoc(id: nat, name: string, number: string, stops: seq<nat>)
  datatype BusDoc = BusDoc(
    id: nat,
    number: string,
    routeId: nat,
    lat: real,
    lng: real,
    status: BusStatus,
    driver: string,
    lastUpdated: string)

  datatype Db = Db(stops: seq<StopDoc>, routes: seq<RouteDoc>, buses: seq<BusDoc>, nextId: nat)

  /** Every stored stop id is below the counter and no two stops share an id. */
  ghost predicate ValidStops(db: Db) {
    && (forall i :: 0 <= i < |db.stops| ==> db.stops[i].id < db.nextId)
    && (forall i, j :: 0 <= i < j < |db.stops| ==> db.stops[i].id != db.stops[j].id)
  }

  /** `Stop.create`: a new stop document with a fresh id. */
  function CreateStop(db: Db, s: StopInput): (out: (Db, nat))
    ensures out.1 == db.nextId && out.0.nextId == db.nextId + 1
    ensures out.0.stops == db.stops + [StopDoc(out.1, s)]
    ensures out.0.routes == db.routes && out.0.buses == db.buses
    ensures ValidStops(db) ==> ValidStops(out.0)
  {
    (db.(stops := db.stops + [StopDoc(db.nextId, s)], nextId := db.nextId + 1), db.nextId)
  }

  /** `Route.create`: a new route document with a fresh id. */
  function CreateRoute(db: Db, name: string, number: string, stopIds: seq<nat>): (out: (Db, nat))
    ensures out.1 == db.nextId && out.0.nextId == db.nextId + 1
    ensures out.0.routes == db.routes + [RouteDoc(out.1, name, number, stopIds)]
    ensures out.0.stops == db.stops && out.0.buses == db.buses
    ensures ValidStops(db) ==> ValidStops(out.0)
  {
    (db.(routes := db.routes + [RouteDoc(db.nextId, name, number, stopIds)], nextId := db.nextId + 1), db.nextId)
  }

  /** `Bus.create`: a new bus document with a fresh id. */
  function CreateBus(db: Db, b: BusDoc): (out: (Db, nat))
    ensures out.1 == db.nextId && out.0.nextId == db.nextId + 1
    ensures out.0.buses == db.buses + [b.(id := out.1)]
    ensures out.0.stops == db.stops && out.0.routes == db.routes
  {
    (db.(buses := db.buses + [b.(id := db.nextId)], nextId := db.nextId + 1), db.nextId)
  }

  function HasKey(key: StopKey): StopDoc -> bool {
    (d: StopDoc) => KeyOf(d.data) == key
  }

  function HasId(id: nat): StopDoc -> bool {
    (d: StopDoc) => d.id == id
  }

  /** `Stop.findOne({name, lat, lng})`: the first stored stop with this key. */
  function FindStop(db: Db, key: StopKey): (r: Option<StopDoc>)
    ensures r.Some? ==> r.value in db.stops && KeyOf(r.value.data) == key
    ensures r.None? <==> forall j :: 0 <= j < |db.stops| ==> KeyOf(db.stops[j].data) != key
  {
    match FindIndex(db.stops, HasKey(key))
    case None => None
    case Some(i) => Some(db.stops[i])
  }

  /** Stops created after a first match do not change what `findOne` returns. */
  lemma FindStopAfterAppend(db: Db, more: seq<StopDoc>, key: StopKey)
    requires FindStop(db, key).Some?
    ensures FindStop(db.(stops := db.stops + more), key) == FindStop(db, key)
  {
    FindIndexAppend(db.stops, more, HasKey(key));
  }

  /** `populate('stops')`: the documents of the referenced ids, in reference order; dangling ids are dropped. */
  function Populate(db: Db, ids: seq<nat>): (docs: seq<StopDoc>)
    ensures |docs| <= |ids|
    ensures forall j :: 0 <= j < |docs| ==> docs[j] in db.stops
    ensures forall j :: 0 <= j < |docs| ==> docs[j].id in ids
  {
    if ids == [] then []
    else
      var first := match FindIndex(db.stops, HasId(ids[0]))
        case None => []
        case Some(i) => [db.stops[i]];
      first + Populate(db, ids[1..])
  }

  /** Some stored stop carries `id`. */
  ghost predicate Stored(db: Db, id: nat) {
    exists j :: 0 <= j < |db.stops| && db.stops[j].id == id
  }

  ghost predicate AllStored(db: Db, ids: seq<nat>) {
    forall i :: 0 <= i < |ids| ==> Stored(db, ids[i])
  }

  /**
   * Nothing is dropped exactly when every referenced id is stored, and then
   * the i-th document is the stop with the i-th id.
   */
  lemma PopulateAllResolved(db: Db, ids: seq<nat>)
    ensures |Populate(db, ids)| == |ids| <==> AllStored(db, ids)
    ensures AllStored(db, ids) ==> forall i :: 0 <= i < |ids| ==> Populate(db, ids)[i].id == ids[i]
  {
    PopulateLength(db, ids);
    if AllStored(db, ids) {
      PopulateIds(db, ids);
    }
  }

  lemma {:induction false} PopulateLength(db: Db, ids: seq<nat>)
    ensures |Populate(db, ids)| == |ids| <==> AllStored(db, ids)
    decreases |ids|
  {
    if ids != [] {
      PopulateLength(db, ids[1..]);
      AllStoredCons(db, ids);
      PopulateHead(db, ids);
    }
  }

  lemma {:induction false} PopulateIds(db: Db, ids: seq<nat>)
    requires AllStored(db, ids)
    ensures |Populate(db, ids)| == |ids|
    ensures forall i :: 0 <= i < |ids| ==> Populate(db, ids)[i].id == ids[i]
    decreases |ids|
  {
    PopulateLength(db, ids);
    if ids != [] {
      var docs, rest := Populate(db, ids), Populate(db, ids[1..]);
      AllStoredCons(db, ids);
      PopulateIds(db, ids[1..]);
      PopulateHead(db, ids);
      forall i | 1 <= i < |ids| ensures docs[i].id == ids[i] {
        assert docs[i] == docs[1..][i - 1] == rest[i - 1] && ids[i] == ids[1..][i - 1];
      }
    }
  }

  /** The first reference contributes one document exactly when it is stored. */
  lemma PopulateHead(db: Db, ids: seq<nat>)
    requires ids != []
    ensures Stored(db, ids[0]) ==> var docs := Populate(db, ids);
      |docs| > 0 && docs[0].id == ids[0] && docs[1..] == Populate(db, ids[1..])
    ensures !Stored(db, ids[0]) ==> Populate(db, ids) == Populate(db, ids[1..])
  {
    match FindIndex(db.stops, HasId(ids[0]))
    case None =>
      assert !Stored(db, ids[0]) by {
        forall j | 0 <= j < |db.stops| ensures db.stops[j].id != ids[0] {
          assert !HasId(ids[0])(db.stops[j]);
        }
      }
    case Some(k) =>
      assert HasId(ids[0])(db.stops[k]);
  }

  lemma AllStoredCons(db: Db, ids: seq<nat>)
    requires ids != []
    ensures AllStored(db, ids) <==> Stored(db, ids[0]) && AllStored(db, ids[1..])
  {
    if Stored(db, ids[0]) && AllStored(db, ids[1..]) {
      forall i | 1 <= i < |ids| ensures Stored(db, ids[i]) {
        assert ids[i] == ids[1..][i - 1];
      }
    }
  }

  /** With unique ids, a stored stop is found by its own id. */
  lemma FindById(db: Db, d: StopDoc)
    requires ValidStops(db)
    requires d in db.stops
    ensures FindIndex(db.stops, HasId(d.id)).Some?
    ensures db.stops[FindIndex(db.stops, HasId(d.id)).value] == d
  {
    var k :| 0 <= k < |db.stops| && db.stops[k] == d;
    FirstMatchUnique(db.stops, HasId(d.id), k);
  }
}
