/**
 * The routes API: POST finds or creates each posted stop by
 * (name, lat, lng) and creates the route over the resolved stop ids; GET
 * lists the routes with their stops, ordered by route number.
 * Requests are handled one at a time.
 */
module RoutesApi {
  import opened Wrappers
  import opened Seqs
  import opened Store

  /** The request's `stops` field: an array, or anything else (missing, null, an object...). */
  datatype StopsField = StopArray(items: seq<StopInput>) | NotAnArray

  datatype PostBody = PostBody(name: string, number: string, stops: StopsField)

  /** A route with its stops populated, as the handlers return it. */
  datatype RouteView = RouteView(id: nat, name: string, number: string, stops: seq<StopDoc>)

  /** One loop iteration: reuse the first stored stop with the same key, else create one. */
  function FindOrCreateStop(db: Db, s: StopInput): (out: (Db, nat))
    ensures FindStop(db, KeyOf(s)).Some? ==> out == (db, FindStop(db, KeyOf(s)).value.id)
    ensures FindStop(db, KeyOf(s)).None? ==> out == CreateStop(db, s)
    ensures FindStop(out.0, KeyOf(s)).Some? && FindStop(out.0, KeyOf(s)).value.id == out.1
  {
    match FindStop(db, KeyOf(s))
    case Some(d) => (db, d.id)
    case None =>
      var (db', id) := CreateStop(db, s);
      assert FindIndex(db.stops, HasKey(KeyOf(s))).None?;
      FindIndexAppend(db.stops, [StopDoc(id, s)], HasKey(KeyOf(s)));
      (db', id)
  }

  /**
   * The stop loop: one id per posted stop, in order. Each id is that of
   * the first stored stop with the posted key, so identical stops in one
   * request get the same id. Only stops whose key was not yet stored are
   * added, at the end.
   */
  function ResolveStops(db: Db, inputs: seq<StopInput>): (out: (Db, seq<nat>))
    ensures |out.1| == |inputs|
    ensures db.stops <= out.0.stops
    ensures out.0.routes == db.routes && out.0.buses == db.buses
    ensures out.0.nextId >= db.nextId
    ensures forall i :: 0 <= i < |inputs| ==>
      FindStop(out.0, KeyOf(inputs[i])).Some? && FindStop(out.0, KeyOf(inputs[i])).value.id == out.1[i]
    ensures forall k :: |db.stops| <= k < |out.0.stops| ==>
      FindIndex(out.0.stops[..k], HasKey(KeyOf(out.0.stops[k].data))).None?
    ensures ValidStops(db) ==> ValidStops(out.0)
    decreases |inputs|
  {
    if inputs == [] then (db, [])
    else
      var (db1, id) := FindOrCreateStop(db, inputs[0]);
      var (db2, ids) := ResolveStops(db1, inputs[1..]);
      ResolveStep(db, db1, db2, inputs[0], id);
      ResolveIds(db2, inputs, id, ids);
      (db2, [id] + ids)
  }

  /** The first posted stop's answer survives the rest of the loop, and a stop it created was new. */
  lemma ResolveStep(db: Db, db1: Db, db2: Db, s: StopInput, id: nat)
    requires (db1, id) == FindOrCreateStop(db, s)
    requires db1.stops <= db2.stops
    requires forall k :: |db1.stops| <= k < |db2.stops| ==>
      FindIndex(db2.stops[..k], HasKey(KeyOf(db2.stops[k].data))).None?
    ensures FindStop(db2, KeyOf(s)).Some? && FindStop(db2, KeyOf(s)).value.id == id
    ensures forall k :: |db.stops| <= k < |db2.stops| ==>
      FindIndex(db2.stops[..k], HasKey(KeyOf(db2.stops[k].data))).None?
  {
    FirstAnswerSurvives(db1, db2, KeyOf(s));
    if FindStop(db, KeyOf(s)).None? {
      CreatedStopWasNew(db, db1, db2, s);
    }
  }

  /** Stops appended after a key's first match leave its lookup unchanged. */
  lemma FirstAnswerSurvives(db1: Db, db2: Db, key: StopKey)
    requires db1.stops <= db2.stops
    requires FindStop(db1, key).Some?
    ensures FindStop(db2, key) == FindStop(db1, key)
  {
    var more := db2.stops[|db1.stops|..];
    assert db2.stops == db1.stops + more;
    FindStopAfterAppend(db1, more, key);
    assert db2 == db2.(stops := db1.stops + more);
  }

  /** A stop created because its key was missing is the first with that key. */
  lemma CreatedStopWasNew(db: Db, db1: Db, db2: Db, s: StopInput)
    requires FindStop(db, KeyOf(s)).None?
    requires db1 == CreateStop(db, s).0
    requires db1.stops <= db2.stops
    ensures FindIndex(db2.stops[..|db.stops|], HasKey(KeyOf(db2.stops[|db.stops|].data))).None?
  {
    var k := |db.stops|;
    assert db2.stops[..k] == db.stops;
    assert db2.stops[k].data == s;
  }

  lemma ResolveIds(db2: Db, inputs: seq<StopInput>, id: nat, ids: seq<nat>)
    requires |inputs| > 0 && |ids| == |inputs| - 1
    requires FindStop(db2, KeyOf(inputs[0])).Some? && FindStop(db2, KeyOf(inputs[0])).value.id == id
    requires forall i :: 0 <= i < |inputs| - 1 ==>
      FindStop(db2, KeyOf(inputs[1..][i])).Some? && FindStop(db2, KeyOf(inputs[1..][i])).value.id == ids[i]
    ensures forall i :: 0 <= i < |inputs| ==>
      FindStop(db2, KeyOf(inputs[i])).Some? && FindStop(db2, KeyOf(inputs[i])).value.id == ([id] + ids)[i]
  {
    forall i | 0 <= i < |inputs|
      ensures FindStop(db2, KeyOf(inputs[i])).Some? && FindStop(db2, KeyOf(inputs[i])).value.id == ([id] + ids)[i]
    {
      if i > 0 {
        assert inputs[i] == inputs[1..][i - 1];
      }
    }
  }

  /** The body's stops when it is an array, otherwise none. */
  function PostedStops(body: PostBody): seq<StopInput> {
    match body.stops
    case StopArray(items) => items
    case NotAnArray => []
  }

  /** POST: resolve the stops, create the route with the body's name and number, return it populated. */
  function Post(db: Db, body: PostBody): (out: (Db, RouteView))
    ensures out.1.name == body.name && out.1.number == body.number
    ensures out.0.routes == db.routes + [RouteDoc(out.1.id, body.name, body.number, ResolveStops(db, PostedStops(body)).1)]
    ensures body.stops.NotAnArray? ==> out.1.stops == [] && out.0.stops == db.stops
    ensures out.1.id >= db.nextId
  {
    var (db1, ids) := ResolveStops(db, PostedStops(body));
    var (db2, rid) := CreateRoute(db1, body.name, body.number, ids);
    (db2, RouteView(rid, body.name, body.number, Populate(db2, ids)))
  }

  /**
   * With unique stop ids, the returned route lists one stop per posted
   * stop, in posted order, each with the posted (name, lat, lng).
   */
  lemma PostStopsMatchRequest(db: Db, body: PostBody)
    requires ValidStops(db)
    ensures var view := Post(db, body).1;
      var inputs := PostedStops(body);
      |view.stops| == |inputs|
      && forall i :: 0 <= i < |inputs| ==> KeyOf(view.stops[i].data) == KeyOf(inputs[i])
  {
    var inputs := PostedStops(body);
    var (db1, ids) := ResolveStops(db, inputs);
    var (db2, rid) := CreateRoute(db1, body.name, body.number, ids);
    assert db2.stops == db1.stops;
    PopulateResolved(db2, inputs, ids);
  }

  lemma {:induction false} PopulateResolved(db: Db, inputs: seq<StopInput>, ids: seq<nat>)
    requires ValidStops(db)
    requires |ids| == |inputs|
    requires forall i :: 0 <= i < |inputs| ==>
      FindStop(db, KeyOf(inputs[i])).Some? && FindStop(db, KeyOf(inputs[i])).value.id == ids[i]
    ensures |Populate(db, ids)| == |inputs|
    ensures forall i :: 0 <= i < |inputs| ==> KeyOf(Populate(db, ids)[i].data) == KeyOf(inputs[i])
    decreases |ids|
  {
    if ids != [] {
      var d := FindStop(db, KeyOf(inputs[0])).value;
      PopulateFirst(db, d, ids);
      ResolvedTail(db, inputs, ids);
      PopulateResolved(db, inputs[1..], ids[1..]);
      var rest := Populate(db, ids[1..]);
      forall i | 0 <= i < |inputs|
        ensures KeyOf(Populate(db, ids)[i].data) == KeyOf(inputs[i])
      {
        if i > 0 {
          assert Populate(db, ids)[i] == rest[i - 1];
          assert inputs[i] == inputs[1..][i - 1];
        }
      }
    }
  }

  /** A stored stop's id populates to that stop. */
  lemma PopulateFirst(db: Db, d: StopDoc, ids: seq<nat>)
    requires ValidStops(db) && d in db.stops
    requires ids != [] && ids[0] == d.id
    ensures Populate(db, ids) == [d] + Populate(db, ids[1..])
  {
    FindById(db, d);
  }

  lemma ResolvedTail(db: Db, inputs: seq<StopInput>, ids: seq<nat>)
    requires |ids| == |inputs| > 0
    requires forall i :: 0 <= i < |inputs| ==>
      FindStop(db, KeyOf(inputs[i])).Some? && FindStop(db, KeyOf(inputs[i])).value.id == ids[i]
    ensures forall i :: 0 <= i < |inputs| - 1 ==>
      FindStop(db, KeyOf(inputs[1..][i])).Some? && FindStop(db, KeyOf(inputs[1..][i])).value.id == ids[1..][i]
  {
    forall i | 0 <= i < |inputs| - 1
      ensures FindStop(db, KeyOf(inputs[1..][i])).Some? && FindStop(db, KeyOf(inputs[1..][i])).value.id == ids[1..][i]
    {
      assert inputs[1..][i] == inputs[i + 1] && ids[1..][i] == ids[i + 1];
    }
  }

  /** Posting stops that are all already stored creates no stop. */
  lemma PostReusesStoredStops(db: Db, body: PostBody)
    requires forall i :: 0 <= i < |PostedStops(body)| ==> FindStop(db, KeyOf(PostedStops(body)[i])).Some?
    ensures Post(db, body).0.stops == db.stops
  {
    ResolveAllStored(db, PostedStops(body));
  }

  lemma {:induction false} ResolveAllStored(db: Db, inputs: seq<StopInput>)
    requires forall i :: 0 <= i < |inputs| ==> FindStop(db, KeyOf(inputs[i])).Some?
    ensures ResolveStops(db, inputs).0 == db
    decreases |inputs|
  {
    if inputs != [] {
      assert FindStop(db, KeyOf(inputs[0])).Some?;
      ResolveAllStored(db, inputs[1..]);
    }
  }

  /** Two posted stops with the same key resolve to the same id. */
  lemma SameKeySameId(db: Db, inputs: seq<StopInput>, i: nat, j: nat)
    requires i < |inputs| && j < |inputs| && KeyOf(inputs[i]) == KeyOf(inputs[j])
    ensures ResolveStops(db, inputs).1[i] == ResolveStops(db, inputs).1[j]
  {
  }

  // ---- GET: routes ordered by number ----

  /** Character (code-point) order on strings, standing for the database's comparison. */
  predicate StrLe(a: string, b: string)
    decreases |a|
  {
    a == [] || (b != [] && (a[0] < b[0] || (a[0] == b[0] && StrLe(a[1..], b[1..]))))
  }

  lemma {:induction false} StrLeTotal(a: string, b: string)
    ensures StrLe(a, b) || StrLe(b, a)
    decreases |a|
  {
    if a != [] && b != [] && a[0] == b[0] {
      StrLeTotal(a[1..], b[1..]);
    }
  }

  ghost predicate SortedByNumber(rs: seq<RouteView>) {
    forall i :: 0 <= i < |rs| - 1 ==> StrLe(rs[i].number, rs[i + 1].number)
  }

  /** Inserts `r` before the first route with a number not below it. */
  function Insert(r: RouteView, rs: seq<RouteView>): (out: seq<RouteView>)
    ensures multiset(out) == multiset(rs) + multiset{r}
    ensures out[0] == r || (rs != [] && out[0] == rs[0])
  {
    if rs == [] then [r]
    else if StrLe(r.number, rs[0].number) then [r] + rs
    else
      var tail := Insert(r, rs[1..]);
      assert rs == [rs[0]] + rs[1..];
      [rs[0]] + tail
  }

  /** Inserting into a sorted list keeps it sorted. */
  lemma {:induction false} InsertSorted(r: RouteView, rs: seq<RouteView>)
    requires SortedByNumber(rs)
    ensures SortedByNumber(Insert(r, rs))
  {
    if rs != [] {
      if StrLe(r.number, rs[0].number) {
        SortedCons(r, rs);
      } else {
        StrLeTotal(r.number, rs[0].number);
        SortedTail(rs);
        InsertSorted(r, rs[1..]);
        SortedCons(rs[0], Insert(r, rs[1..]));
      }
    }
  }

  lemma SortedTail(rs: seq<RouteView>)
    requires rs != [] && SortedByNumber(rs)
    ensures SortedByNumber(rs[1..])
  {
    forall i | 0 <= i < |rs| - 2
      ensures StrLe(rs[1..][i].number, rs[1..][i + 1].number)
    {
      assert rs[1..][i] == rs[i + 1] && rs[1..][i + 1] == rs[i + 2];
    }
  }

  lemma SortedCons(r: RouteView, rs: seq<RouteView>)
    requires SortedByNumber(rs)
    requires rs != [] ==> StrLe(r.number, rs[0].number)
    ensures SortedByNumber([r] + rs)
  {
    var out := [r] + rs;
    forall i | 0 <= i < |out| - 1
      ensures StrLe(out[i].number, out[i + 1].number)
    {
      if i > 0 {
        assert out[i] == rs[i - 1] && out[i + 1] == rs[i];
      }
    }
  }

  /** `sort({ number: 1 })`: a reordering of the routes, ascending by number. */
  function SortByNumber(rs: seq<RouteView>): (out: seq<RouteView>)
    ensures SortedByNumber(out)
    ensures multiset(out) == multiset(rs)
  {
    if rs == [] then []
    else
      assert rs == [rs[0]] + rs[1..];
      var sorted := SortByNumber(rs[1..]);
      InsertSorted(rs[0], sorted);
      Insert(rs[0], sorted)
  }

  function View(db: Db, r: RouteDoc): RouteView {
    RouteView(r.id, r.name, r.number, Populate(db, r.stops))
  }

  /** GET: every stored route once, populated, ascending by number. */
  function Get(db: Db): (out: seq<RouteView>)
    ensures SortedByNumber(out)
    ensures |out| == |db.routes|
    ensures forall r :: r in db.routes ==> View(db, r) in out
    ensures forall v :: v in out ==> exists r :: r in db.routes && v == View(db, r)
  {
    var views := seq(|db.routes|, i requires 0 <= i < |db.routes| => View(db, db.routes[i]));
    var out := SortByNumber(views);
    assert |out| == |multiset(out)| == |multiset(views)| == |views|;
    forall r | r in db.routes
      ensures View(db, r) in out
    {
      var k :| 0 <= k < |db.routes| && db.routes[k] == r;
      assert views[k] == View(db, r);
      assert View(db, r) in multiset(views);
    }
    forall v | v in out
      ensures exists r :: r in db.routes && v == View(db, r)
    {
      assert v in multiset(out);
      assert v in views;
      var k :| 0 <= k < |views| && views[k] == v;
      assert db.routes[k] in db.routes;
    }
    out
  }
}
