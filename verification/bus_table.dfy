/**
 * The fleet management table: status badges, the route cell, the route and
 * status column filters, and the status checkbox toggle that edits the
 * status filter.
 */
module BusTable {
  import opened Wrappers
  import opened Domain
  import opened Seqs
  import Text
  import FleetData

  datatype BadgeStyle = GreenBadge | DestructiveBadge | YellowBadge | SecondaryBadge | DefaultBadge

  datatype Badge = Badge(caption: string, style: BadgeStyle)

  /** The badge for a status string; unknown statuses are shown verbatim in a default badge. */
  function StatusBadge(status: string): Badge {
    match status
    case "active" => Badge("Active", GreenBadge)
    case "delayed" => Badge("Delayed", DestructiveBadge)
    case "idle" => Badge("Idle", YellowBadge)
    case "maintenance" => Badge("Maintenance", SecondaryBadge)
    case _ => Badge(status, DefaultBadge)
  }

  /**
   * Each known status gets its own style and a caption that is the status
   * name with its first letter upper-cased.
   */
  lemma KnownStatusBadges(a: BusStatus, b: BusStatus)
    ensures StatusBadge(StatusName(a)).style != DefaultBadge
    ensures var name, caption := StatusName(a), StatusBadge(StatusName(a)).caption;
      && |name| > 0 && 'a' <= name[0] <= 'z'
      && |caption| == |name|
      && caption[0] == Text.UpperChar(name[0]) && caption[1..] == name[1..]
    ensures StatusBadge(StatusName(a)).caption != StatusName(a)
    ensures a != b ==> StatusBadge(StatusName(a)) != StatusBadge(StatusName(b))
  {
  }

  /** Any other status string is displayed as it is. */
  lemma UnknownStatusVerbatim(status: string)
    requires forall s: BusStatus :: status != StatusName(s)
    ensures StatusBadge(status) == Badge(status, DefaultBadge)
  {
    assert status != StatusName(Active) && status != StatusName(Idle);
    assert status != StatusName(Delayed) && status != StatusName(Maintenance);
  }

  /** The route whose id is the bus's `routeId`, looked up in `routes`. */
  function RouteOf(routes: seq<Route>, routeId: string): (r: Option<Route>)
    ensures r.Some? ==> r.value in routes && r.value.id == routeId
    ensures r.None? <==> forall j :: 0 <= j < |routes| ==> routes[j].id != routeId
  {
    Find(routes, (x: Route) => x.id == routeId)
  }

  /** The route cell: "number - name", or "Unassigned" when no route has the bus's id. */
  function RouteCell(routes: seq<Route>, bus: Bus): (cell: string)
    ensures RouteOf(routes, bus.routeId).None? <==> cell == "Unassigned"
    ensures RouteOf(routes, bus.routeId).Some? ==>
      cell == RouteOf(routes, bus.routeId).value.number + " - " + RouteOf(routes, bus.routeId).value.name
  {
    match RouteOf(routes, bus.routeId)
    case Some(r) =>
      assert (r.number + " - " + r.name)[|r.number| + 1] == '-';
      assert forall k :: 0 <= k < |"Unassigned"| ==> "Unassigned"[k] != '-';
      r.number + " - " + r.name
    case None => "Unassigned"
  }

  /** The route column filter: keep a row iff its route's number is among the selected numbers. */
  predicate RouteFilterKeeps(routes: seq<Route>, selected: seq<string>, bus: Bus) {
    match RouteOf(routes, bus.routeId)
    case Some(r) => r.number in selected
    case None => false
  }

  /** The status column filter: keep a row iff its status is among the selected statuses. */
  predicate StatusFilterKeeps(selected: seq<string>, bus: Bus) {
    StatusName(bus.status) in selected
  }

  /** The table's column filters; `None` is "no filter on this column". */
  datatype TableFilters = TableFilters(route: Option<seq<string>>, status: Option<seq<string>>)

  predicate RowPasses(routes: seq<Route>, f: TableFilters, bus: Bus) {
    && (f.route.Some? ==> RouteFilterKeeps(routes, f.route.value, bus))
    && (f.status.Some? ==> StatusFilterKeeps(f.status.value, bus))
  }

  /** The filtered row model: the rows that pass every set column filter, in table order. */
  function FilteredRows(routes: seq<Route>, f: TableFilters, rows: seq<Bus>): (r: seq<Bus>)
    ensures forall j :: 0 <= j < |r| ==> r[j] in rows && RowPasses(routes, f, r[j])
    ensures forall j :: 0 <= j < |rows| && RowPasses(routes, f, rows[j]) ==> rows[j] in r
  {
    Filter(rows, (b: Bus) => RowPasses(routes, f, b))
  }

  /** With no column filters every row is shown, in order. */
  lemma NoFilterShowsAll(routes: seq<Route>, rows: seq<Bus>)
    ensures FilteredRows(routes, TableFilters(None, None), rows) == rows
  {
    FilterAllPass(rows, (b: Bus) => RowPasses(routes, TableFilters(None, None), b));
  }

  /** A row with a status outside the selection is never shown. */
  lemma StatusFilterExcludes(routes: seq<Route>, f: TableFilters, rows: seq<Bus>, bus: Bus)
    requires f.status.Some? && StatusName(bus.status) !in f.status.value
    ensures bus !in FilteredRows(routes, f, rows)
  {
  }

  /** Whether the checkbox for `status` shows as checked. */
  predicate IsChecked(filter: Option<seq<string>>, status: string) {
    status in filter.GetOr([])
  }

  /**
   * Checking a status appends it to the current list; unchecking removes
   * every occurrence; an empty list is stored as no filter.
   */
  function ToggleStatus(current: Option<seq<string>>, status: string, checked: bool): (r: Option<seq<string>>)
    ensures r != Some([])
    ensures checked ==> r == Some(current.GetOr([]) + [status])
    ensures !checked && r.Some? ==> r.value == RemoveAll(current.GetOr([]), status)
    ensures !checked && r.None? ==> RemoveAll(current.GetOr([]), status) == []
    ensures IsChecked(r, status) == checked
  {
    var cur := current.GetOr([]);
    var next := if checked then cur + [status] else RemoveAll(cur, status);
    if |next| > 0 then Some(next) else None
  }

  /** Toggling one status leaves every other status's checkbox as it was. */
  lemma ToggleKeepsOthers(current: Option<seq<string>>, status: string, checked: bool, other: string)
    requires other != status
    ensures IsChecked(ToggleStatus(current, status, checked), other) == IsChecked(current, other)
  {
    var cur := current.GetOr([]);
    if !checked && other in cur {
      var k :| 0 <= k < |cur| && cur[k] == other;
      assert multiset(RemoveAll(cur, status))[other] == multiset(cur)[other];
    }
  }

  /** Unchecking keeps the other selected statuses in their order. */
  lemma UncheckKeepsOrder(before: seq<string>, after: seq<string>, status: string)
    ensures RemoveAll(before + after, status) == RemoveAll(before, status) + RemoveAll(after, status)
  {
    FilterConcat(before, after, Differs(status));
  }

  /** Checking a status that was not selected and unchecking it again restores the filter. */
  lemma CheckThenUncheck(current: Option<seq<string>>, status: string)
    requires current != Some([])
    requires !IsChecked(current, status)
    ensures ToggleStatus(ToggleStatus(current, status, true), status, false) == current
  {
    var cur := current.GetOr([]);
    UncheckKeepsOrder(cur, [status], status);
    FilterAllPass(cur, Differs(status));
    assert RemoveAll([status], status) == [];
    assert RemoveAll(cur + [status], status) == cur;
  }

  /** On the fallback fleet every bus has a route cell and passes the filter selecting all route numbers. */
  lemma FallbackRowsAllAssigned(now: string, bus: Bus)
    requires bus in FleetData.FallbackBuses(now)
    ensures RouteCell(FleetData.Routes, bus) != "Unassigned"
    ensures RouteFilterKeeps(FleetData.Routes, ["101", "202", "303"], bus)
  {
    FleetData.FallbackReferentialIntegrity(now);
  }
}
