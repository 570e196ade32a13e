/**
 * The decision logic of the fleet map (`src/shared/components/Map/FleetMap.tsx`):
 * which buses get the alert marker colour, the viewport controller that fits
 * the whole fleet once and then flies to the selected route, and which
 * polylines are drawn for a route. Leaflet itself (tiles, icons, popups,
 * animation) is outside the model; only the values handed to it are computed.
 */
module FleetMap {
  import opened Wrappers
  import opened Monitoring
  import opened Strings
  import opened RouteColor

  const AlertMarkerColor: string := "#ef4444"
  const NormalMarkerColor: string := "#22c55e"
  const FullPathColor: string := "#64748b"
  const InitialZoom: int := 13
  const FocusZoom: int := 15
  const BaseLat: real := -33.4489
  const BaseLng: real := -70.6693

  // ---------------------------------------------------------------- alert markers

  /** `${unitId}-${routeId}`, the key of the `busesWithAlerts` set. */
  function AlertKey(unitId: string, routeId: string): string {
    unitId + "-" + routeId
  }

  /** `busesWithAlerts`: the keys of all alerts. */
  function BusesWithAlerts(alerts: seq<Alert>): (keys: set<string>)
    ensures forall a :: a in alerts ==> AlertKey(a.unitId, a.routeId) in keys
    ensures forall k :: k in keys ==> exists a :: a in alerts && k == AlertKey(a.unitId, a.routeId)
  {
    set a | a in alerts :: AlertKey(a.unitId, a.routeId)
  }

  /**
   * `hasAlertsForBus(route)` as written: the route's joined key is looked up
   * in `busesWithAlerts`, so it holds when some alert's joined key is the same
   * text, whatever its unit and route are.
   */
  function HasAlertsForBus(alerts: seq<Alert>, route: BusRoute): (marked: bool)
    ensures marked <==>
      exists a :: a in alerts && AlertKey(a.unitId, a.routeId) == AlertKey(route.unitId, route.routeId)
    ensures HasAlertForRide(alerts, route) ==> marked
  {
    AlertKey(route.unitId, route.routeId) in BusesWithAlerts(alerts)
  }

  /** What the marker colour is meant to reflect: some alert has this route's unit and route. */
  predicate HasAlertForRide(alerts: seq<Alert>, route: BusRoute) {
    exists a :: a in alerts && a.unitId == route.unitId && a.routeId == route.routeId
  }

  /** An alert with the route's exact keys always marks it. */
  lemma MatchingAlertMarksBus(alerts: seq<Alert>, route: BusRoute)
    requires HasAlertForRide(alerts, route)
    ensures HasAlertsForBus(alerts, route)
  {
  }

  /**
   * The joined key is ambiguous once an id contains a dash: an alert for
   * unit "a" on route "b-c" marks the bus of unit "a-b" on route "c".
   */
  lemma KeyCollision(alert: Alert, route: BusRoute)
    requires alert.unitId == "a" && alert.routeId == "b-c"
    requires route.unitId == "a-b" && route.routeId == "c"
    ensures HasAlertsForBus([alert], route)
    ensures !HasAlertForRide([alert], route)
  {
    assert AlertKey(alert.unitId, alert.routeId) == "a-b-c" == AlertKey(route.unitId, route.routeId);
  }

  /** Neither the route's unit id nor any alert's unit id contains a dash. */
  predicate DashFreeUnits(alerts: seq<Alert>, route: BusRoute) {
    '-' !in route.unitId && forall a :: a in alerts ==> '-' !in a.unitId
  }

  /** With dash-free unit ids the joined key decides exactly what was meant. */
  lemma DashFreeKeysAgree(alerts: seq<Alert>, route: BusRoute)
    requires '-' !in route.unitId
    requires forall a :: a in alerts ==> '-' !in a.unitId
    ensures HasAlertsForBus(alerts, route) <==> HasAlertForRide(alerts, route)
  {
    if HasAlertsForBus(alerts, route) {
      var a :| a in alerts && AlertKey(route.unitId, route.routeId) == AlertKey(a.unitId, a.routeId);
      SplitAtSeparator(route.unitId, route.routeId, a.unitId, a.routeId, '-');
    }
  }

  /**
   * The marker colour of `createBusIcon(hasAlertsForBus(route))`, as the
   * source computes it: red on a joined-key match, which is a (unit, route)
   * match whenever no unit id contains a dash.
   */
  function MarkerColorAsWritten(alerts: seq<Alert>, route: BusRoute): (color: string)
    ensures color == AlertMarkerColor <==> HasAlertsForBus(alerts, route)
    ensures color == NormalMarkerColor <==> !HasAlertsForBus(alerts, route)
    ensures DashFreeUnits(alerts, route) ==> (color == AlertMarkerColor <==> HasAlertForRide(alerts, route))
  {
    if DashFreeUnits(alerts, route) then
      DashFreeKeysAgree(alerts, route);
      if HasAlertsForBus(alerts, route) then AlertMarkerColor else NormalMarkerColor
    else if HasAlertsForBus(alerts, route) then AlertMarkerColor else NormalMarkerColor
  }

  /**
   * The marker colour as evidently intended, decided on the (unit, route) pair
   * itself: red exactly when a matching alert exists. The map renders
   * `MarkerColorAsWritten`; the two agree on dash-free unit ids.
   */
  function MarkerColor(alerts: seq<Alert>, route: BusRoute): (color: string)
    ensures color == AlertMarkerColor <==> HasAlertForRide(alerts, route)
    ensures color == NormalMarkerColor <==> !HasAlertForRide(alerts, route)
    ensures alerts == [] ==> color == NormalMarkerColor
  {
    if HasAlertForRide(alerts, route) then AlertMarkerColor else NormalMarkerColor
  }

  // ---------------------------------------------------------------- bounds

  /** A latitude/longitude box, as `L.latLngBounds` builds it. */
  datatype Bounds = Bounds(south: real, west: real, north: real, east: real)

  predicate Contains(b: Bounds, p: Point) {
    b.south <= p.lat <= b.north && b.west <= p.lng <= b.east
  }

  function Min(a: real, b: real): real {
    if a <= b then a else b
  }

  function Max(a: real, b: real): real {
    if a >= b then a else b
  }

  /** The smallest box holding every point: it contains them all and each edge touches one. */
  function BoundsOf(points: seq<Point>): (b: Bounds)
    requires |points| > 0
    ensures forall i :: 0 <= i < |points| ==> Contains(b, points[i])
    ensures exists i :: 0 <= i < |points| && points[i].lat == b.south
    ensures exists i :: 0 <= i < |points| && points[i].lat == b.north
    ensures exists i :: 0 <= i < |points| && points[i].lng == b.west
    ensures exists i :: 0 <= i < |points| && points[i].lng == b.east
  {
    var p := points[|points| - 1];
    if |points| == 1 then Bounds(p.lat, p.lng, p.lat, p.lng)
    else
      var prev := BoundsOf(points[..|points| - 1]);
      assert forall i :: 0 <= i < |points| - 1 ==> points[..|points| - 1][i] == points[i];
      Bounds(Min(prev.south, p.lat), Min(prev.west, p.lng), Max(prev.north, p.lat), Max(prev.east, p.lng))
  }

  /** One route's contribution to the initial fit: completed, remaining, then the bus itself. */
  function RoutePoints(route: BusRoute): seq<Point> {
    route.completedSegments + route.remainingSegments + [route.currentPosition.AsPoint()]
  }

  /** `routes.flatMap(...)`: every route's points, route by route. */
  function FleetPoints(routes: seq<BusRoute>): (points: seq<Point>)
    ensures |routes| > 0 ==> |points| > 0
    ensures forall i, p :: 0 <= i < |routes| && p in RoutePoints(routes[i]) ==> p in points
    ensures forall p :: p in points ==> exists i :: 0 <= i < |routes| && p in RoutePoints(routes[i])
  {
    if |routes| == 0 then []
    else
      var prev := FleetPoints(routes[..|routes| - 1]);
      var last := RoutePoints(routes[|routes| - 1]);
      assert forall i :: 0 <= i < |routes| - 1 ==> routes[..|routes| - 1][i] == routes[i];
      prev + last
  }

  // ---------------------------------------------------------------- viewport controller

  /** What the map was last told to show. */
  datatype View =
    | Unset                               // still at the container's initial centre and zoom
    | Fitted(bounds: Bounds)              // `map.fitBounds(bounds)`
    | FlyTo(center: Point, zoom: int)     // `map.flyTo(center, zoom)`

  /** `MapController`'s state: its `hasInitialized` flag and the current view. */
  datatype Controller = Controller(hasInitialized: bool, view: View)

  const InitialController: Controller := Controller(false, Unset)

  /** `selectedRouteId` is truthy: present and not the empty string. */
  predicate IsSelected(selected: Option<string>) {
    selected.Some? && selected.value != ""
  }

  /** `routes.find((r) => r.id === id)`: the first route with that id, if any. */
  function FindRoute(routes: seq<BusRoute>, id: string): (r: Option<BusRoute>)
    ensures r.Some? <==> exists i :: 0 <= i < |routes| && routes[i].id == id
    ensures r.Some? ==> r.value.id == id
    ensures r.Some? ==>
      exists i :: 0 <= i < |routes| && routes[i] == r.value && (forall j :: 0 <= j < i ==> routes[j].id != id)
  {
    if |routes| == 0 then None
    else if routes[0].id == id then Some(routes[0])
    else
      var r := FindRoute(routes[1..], id);
      assert forall j :: 1 <= j < |routes| ==> routes[1..][j - 1] == routes[j];
      r
  }

  /** The first effect: fit the whole fleet, once, when there are routes and nothing is selected. */
  function FitEffect(st: Controller, routes: seq<BusRoute>, selected: Option<string>): (next: Controller)
    ensures next.hasInitialized == (st.hasInitialized || (|routes| > 0 && !IsSelected(selected)))
    ensures next != st <==> |routes| > 0 && !st.hasInitialized && !IsSelected(selected)
    ensures next != st ==> next.view.Fitted?
    ensures next != st ==> forall p :: p in FleetPoints(routes) ==> Contains(next.view.bounds, p)
  {
    if |routes| > 0 && !st.hasInitialized && !IsSelected(selected) then
      Controller(true, Fitted(BoundsOf(FleetPoints(routes))))
    else st
  }

  /** The second effect: fly to the selected route's bus at zoom 15, if that route exists. */
  function FocusEffect(st: Controller, routes: seq<BusRoute>, selected: Option<string>): (next: Controller)
    ensures next.hasInitialized == st.hasInitialized
    ensures IsSelected(selected) && FindRoute(routes, selected.value).Some? ==>
      next.view == FlyTo(FindRoute(routes, selected.value).value.currentPosition.AsPoint(), FocusZoom)
    ensures !IsSelected(selected) || FindRoute(routes, selected.value).None? ==> next == st
  {
    if IsSelected(selected) && |routes| > 0 then
      match FindRoute(routes, selected.value)
      case Some(route) => st.(view := FlyTo(route.currentPosition.AsPoint(), FocusZoom))
      case None => st
    else st
  }

  /**
   * One render in which the routes or the selection changed: both effects, in
   * declaration order. At most one of them acts: a selection that is found
   * flies there, no selection fits the fleet on the first render with routes,
   * and anything else leaves the controller as it was.
   */
  function Update(st: Controller, routes: seq<BusRoute>, selected: Option<string>): (next: Controller)
    ensures next.hasInitialized == (st.hasInitialized || (|routes| > 0 && !IsSelected(selected)))
    ensures IsSelected(selected) && FindRoute(routes, selected.value).Some? ==>
      next.view == FlyTo(FindRoute(routes, selected.value).value.currentPosition.AsPoint(), FocusZoom)
    ensures !IsSelected(selected) && |routes| > 0 && !st.hasInitialized ==>
      next.view.Fitted? && forall p :: p in FleetPoints(routes) ==> Contains(next.view.bounds, p)
    ensures IsSelected(selected) && FindRoute(routes, selected.value).None? ==> next == st
    ensures !IsSelected(selected) && (|routes| == 0 || st.hasInitialized) ==> next == st
  {
    FocusEffect(FitEffect(st, routes, selected), routes, selected)
  }

  /** A new snapshot of routes or a new selection arriving at the map. */
  datatype Event = Event(routes: seq<BusRoute>, selected: Option<string>)

  /** An event that makes the fit effect act on a controller not yet initialised. */
  predicate Fits(e: Event) {
    |e.routes| > 0 && !IsSelected(e.selected)
  }

  /**
   * One render of `FleetMap`. With no routes it returns its placeholder
   * instead of the map, which unmounts `MapController` and discards its
   * `hasInitialized` state; the next render with routes mounts a fresh
   * controller. With routes, the mounted controller runs its effects.
   */
  function Render(st: Controller, e: Event): (next: Controller)
    ensures |e.routes| == 0 ==> next == InitialController
    ensures next.hasInitialized <==> |e.routes| > 0 && (st.hasInitialized || !IsSelected(e.selected))
    ensures Fits(e) && !st.hasInitialized ==> next.view == Fitted(BoundsOf(FleetPoints(e.routes)))
    ensures |e.routes| > 0 && st.hasInitialized ==> next.view == st.view || next.view.FlyTo?
  {
    if |e.routes| == 0 then InitialController else Update(st, e.routes, e.selected)
  }

  /** Every event has routes, so the controller stays mounted throughout. */
  predicate StaysMounted(events: seq<Event>) {
    forall j :: 0 <= j < |events| ==> |events[j].routes| > 0
  }

  /**
   * The controller after a sequence of renders. It ends initialised exactly
   * when it started so and was never unmounted, or some render fitted it and
   * none after that unmounted it; a final render without routes leaves a
   * fresh controller.
   */
  function Run(st: Controller, events: seq<Event>): (end: Controller)
    ensures |events| == 0 ==> end == st
    ensures |events| > 0 && |events[|events| - 1].routes| == 0 ==> end == InitialController
    ensures end.hasInitialized <==>
      (st.hasInitialized && StaysMounted(events))
      || exists i :: 0 <= i < |events| && Fits(events[i]) && StaysMounted(events[i + 1..])
    decreases |events|
  {
    if |events| == 0 then st
    else
      var end := Run(Render(st, events[0]), events[1..]);
      assert forall i :: 1 <= i < |events| ==> events[1..][i - 1] == events[i];
      assert forall k :: 1 <= k < |events| ==> events[1..][k..] == events[k + 1..];
      assert StaysMounted(events) <==> |events[0].routes| > 0 && StaysMounted(events[1..]);
      end
  }

  /**
   * Once initialised, and as long as the map stays mounted, the controller
   * stays initialised and never fits again: the view is the one it had or a
   * fly-to.
   */
  lemma {:induction false} NeverFitsAgain(st: Controller, events: seq<Event>)
    requires st.hasInitialized && StaysMounted(events)
    ensures Run(st, events).hasInitialized
    ensures Run(st, events).view == st.view || Run(st, events).view.FlyTo?
    decreases |events|
  {
    if |events| > 0 {
      var next := Render(st, events[0]);
      assert next.view == st.view || next.view.FlyTo?;
      assert forall j :: 0 <= j < |events| - 1 ==> events[1..][j] == events[j + 1];
      NeverFitsAgain(next, events[1..]);
      if Run(next, events[1..]).view == next.view && next.view.FlyTo? {
        assert Run(st, events).view.FlyTo?;
      }
    }
  }

  /**
   * A render without routes unmounts the controller, so the next render with
   * routes and no selection fits the fleet again, whatever happened before.
   */
  lemma RemountFitsAgain(st: Controller, selected: Option<string>, routes: seq<BusRoute>)
    requires |routes| > 0
    ensures Run(st, [Event([], selected), Event(routes, None)])
      == Controller(true, Fitted(BoundsOf(FleetPoints(routes))))
  {
    var events := [Event([], selected), Event(routes, None)];
    assert events[1..] == [Event(routes, None)];
    assert events[1..][1..] == [];
  }

  // ---------------------------------------------------------------- layers

  datatype PathKind = FullPath | CompletedPath | RemainingPath

  /** A `<Polyline>` with the points and colour it is given. */
  datatype Polyline = Polyline(kind: PathKind, points: seq<Point>, color: string)

  function KindRank(k: PathKind): nat {
    match k
    case FullPath => 0
    case CompletedPath => 1
    case RemainingPath => 2
  }

  /** A polyline of the given kind is among `lines`. */
  predicate HasKind(lines: seq<Polyline>, k: PathKind) {
    exists l :: l in lines && l.kind == k
  }

  /** 1 when a path of these points is drawn, 0 otherwise. */
  function Drawn(points: seq<Point>): nat {
    if |points| > 1 then 1 else 0
  }

  /** A path is drawn only when it has at least two points (`length > 1`). */
  function PathLine(kind: PathKind, points: seq<Point>, color: string): (lines: seq<Polyline>)
    ensures |lines| <= 1
    ensures |lines| == 1 <==> |points| > 1
    ensures forall l :: l in lines ==> l == Polyline(kind, points, color)
  {
    if |points| > 1 then [Polyline(kind, points, color)] else []
  }

  /** Lines that do not share a kind appear in increasing kind order. */
  predicate InDrawingOrder(lines: seq<Polyline>) {
    forall i, j :: 0 <= i < j < |lines| ==> KindRank(lines[i].kind) < KindRank(lines[j].kind)
  }

  /**
   * The three candidate paths in drawing order, each kept only when it has
   * more than one point.
   */
  function DrawPaths(full: seq<Point>, completed: seq<Point>, remaining: seq<Point>,
                     color: string, lighter: string): (lines: seq<Polyline>)
    ensures |lines| == Drawn(full) + Drawn(completed) + Drawn(remaining)
    ensures forall l :: l in lines ==> |l.points| > 1
    ensures forall l :: l in lines && l.kind == FullPath ==> l.points == full && l.color == FullPathColor
    ensures forall l :: l in lines && l.kind == CompletedPath ==> l.points == completed && l.color == color
    ensures forall l :: l in lines && l.kind == RemainingPath ==> l.points == remaining && l.color == lighter
  {
    PathLine(FullPath, full, FullPathColor)
      + PathLine(CompletedPath, completed, color)
      + PathLine(RemainingPath, remaining, lighter)
  }

  /** A path is among the drawn lines exactly when it has more than one point, and they come in order. */
  lemma DrawPathsKinds(full: seq<Point>, completed: seq<Point>, remaining: seq<Point>, color: string, lighter: string)
    ensures var lines := DrawPaths(full, completed, remaining, color, lighter);
      && (HasKind(lines, FullPath) <==> |full| > 1)
      && (HasKind(lines, CompletedPath) <==> |completed| > 1)
      && (HasKind(lines, RemainingPath) <==> |remaining| > 1)
      && InDrawingOrder(lines)
  {
    var c := PathLine(RemainingPath, remaining, lighter);
    var b := PathLine(CompletedPath, completed, color);
    var a := PathLine(FullPath, full, FullPathColor);
    assert |c| == 1 ==> c[0] in c;
    assert |b| == 1 ==> b[0] in b + c;
    assert |a| == 1 ==> a[0] in a + b + c;
    PrependInOrder(b, c);
    PrependInOrder(a, b + c);
    assert a + b + c == a + (b + c);
  }

  /** Putting a lower-ranked line (or none) in front of a list in drawing order keeps the order. */
  lemma PrependInOrder(p: seq<Polyline>, rest: seq<Polyline>)
    requires |p| <= 1 && InDrawingOrder(rest)
    requires forall l :: l in p ==> forall m :: m in rest ==> KindRank(l.kind) < KindRank(m.kind)
    ensures InDrawingOrder(p + rest)
  {
    if |p| == 1 {
      var lines := p + rest;
      forall i, j | 0 <= i < j < |lines|
        ensures KindRank(lines[i].kind) < KindRank(lines[j].kind)
      {
        assert lines[j] == rest[j - 1] && lines[j] in rest;
        if i > 0 {
          assert lines[i] == rest[i - 1];
        } else {
          assert lines[i] in p;
        }
      }
    }
  }

  /** The polylines of one route: full path in grey, completed part in the route colour, rest lighter. */
  function RoutePolylines(route: BusRoute): (lines: seq<Polyline>)
    ensures |lines| == Drawn(route.FullPath()) + Drawn(route.completedSegments) + Drawn(route.remainingSegments)
    ensures forall l :: l in lines ==> |l.points| > 1
    ensures HasKind(lines, FullPath) <==> |route.FullPath()| > 1
    ensures HasKind(lines, CompletedPath) <==> |route.completedSegments| > 1
    ensures HasKind(lines, RemainingPath) <==> |route.remainingSegments| > 1
    ensures forall l :: l in lines && l.kind == FullPath ==> l.points == route.FullPath() && l.color == FullPathColor
    ensures forall l :: l in lines && l.kind == CompletedPath ==>
      l.points == route.completedSegments && l.color == GetRouteColor(route.routeId)
    ensures forall l :: l in lines && l.kind == RemainingPath ==>
      l.points == route.remainingSegments && l.color == GetLighterColor(GetRouteColor(route.routeId))
    ensures InDrawingOrder(lines)
  {
    var color := GetRouteColor(route.routeId);
    DrawPathsKinds(route.FullPath(), route.completedSegments, route.remainingSegments, color, GetLighterColor(color));
    DrawPaths(route.FullPath(), route.completedSegments, route.remainingSegments, color, GetLighterColor(color))
  }

  /** Everything drawn for one route: its polylines and its bus marker. */
  datatype RouteLayers = RouteLayers(lines: seq<Polyline>, marker: Point, markerColor: string)

  /** What `FleetMap` renders: the placeholder, or the map with one layer group per route. */
  datatype MapView =
    | NoRoutesPlaceholder
    | LeafletMap(center: Point, zoom: int, layers: seq<RouteLayers>)

  /** `routes[0]?.currentPosition.lat || -33.4489`: a zero coordinate falls back to the base. */
  function InitialCenter(first: BusRoute): (c: Point)
    ensures c.lat == (if first.currentPosition.lat == 0.0 then BaseLat else first.currentPosition.lat)
    ensures c.lng == (if first.currentPosition.lng == 0.0 then BaseLng else first.currentPosition.lng)
  {
    var p := first.currentPosition;
    Point(if p.lat != 0.0 then p.lat else BaseLat, if p.lng != 0.0 then p.lng else BaseLng)
  }

  function RenderFleetMap(routes: seq<BusRoute>, alerts: seq<Alert>): (v: MapView)
    ensures v.NoRoutesPlaceholder? <==> |routes| == 0
    ensures v.LeafletMap? ==> v.center == InitialCenter(routes[0])
    ensures v.LeafletMap? ==> v.zoom == InitialZoom && |v.layers| == |routes|
    ensures v.LeafletMap? ==> forall i :: 0 <= i < |routes| ==>
      v.layers[i].lines == RoutePolylines(routes[i])
      && v.layers[i].marker == routes[i].currentPosition.AsPoint()
      && (v.layers[i].markerColor == AlertMarkerColor <==> HasAlertsForBus(alerts, routes[i]))
      && (v.layers[i].markerColor == NormalMarkerColor <==> !HasAlertsForBus(alerts, routes[i]))
    ensures v.LeafletMap? ==> forall i :: 0 <= i < |routes| && DashFreeUnits(alerts, routes[i]) ==>
      (v.layers[i].markerColor == AlertMarkerColor <==> HasAlertForRide(alerts, routes[i]))
  {
    if |routes| == 0 then NoRoutesPlaceholder
    else
      LeafletMap(
        InitialCenter(routes[0]),
        InitialZoom,
        seq(|routes|, i requires 0 <= i < |routes| =>
          RouteLayers(RoutePolylines(routes[i]), routes[i].currentPosition.AsPoint(), MarkerColorAsWritten(alerts, routes[i]))))
  }
}
