/**
 * The simulated-fleet generator (`src/shared/utils/dummyData.ts`).
 *
 * Every `Math.random()` call of the source is an explicit `UnitDraw`
 * parameter, the clock reading is the parameter `now`, and the spiral
 * geometry with its jitter is an opaque `Geometry` giving point `i` of an
 * `n`-point path. What is left is a pure function whose output has the
 * structural invariants proved below.
 */
module DummyData {
  import opened Wrappers
  import opened Monitoring
  import opened Strings
  import opened Seqs
  import opened NewestFirst

  /** One value of `Math.random()`. */
  type UnitDraw = r: real | 0.0 <= r < 1.0

  /** Point `i` of an `n`-point path: the spiral position plus its random jitter. */
  type Geometry = (nat, nat) -> Point

  /** The route identifiers the buses are spread over, in order. */
  const RouteIds: seq<string> := ["13g", "5a", "7b", "12c", "9d"]

  const RideStartLeadMs: int := 20 * MinuteMs
  const RideEndLagMs: int := 15 * MinuteMs
  const AlertWindowMs: int := 30 * MinuteMs

  // ---------------------------------------------------------------- routes

  /** The draws `generateRoute` makes besides the path jitter. */
  datatype RouteDraws = RouteDraws(segments: UnitDraw, ratio: UnitDraw, delay: UnitDraw)

  /** `15 + Math.floor(Math.random() * 10)`. */
  function SegmentCount(r: UnitDraw): (n: int)
    ensures 15 <= n <= 24
  {
    15 + (r * 10.0).Floor
  }

  /** `Math.floor(numSegments * (0.3 + Math.random() * 0.5))`. */
  function CompletedCount(n: int, r: UnitDraw): (c: int)
    requires 15 <= n <= 24
    ensures 4 <= c <= 19
    ensures n - c >= 4
  {
    CompletedBounds(n, r);
    (n as real * (0.3 + r * 0.5)).Floor
  }

  lemma CompletedBounds(n: int, r: UnitDraw)
    requires 15 <= n <= 24
    ensures var c := (n as real * (0.3 + r * 0.5)).Floor; 4 <= c <= 19 && n - c >= 4
  {
    var nr := n as real;
    var x := nr * (0.3 + r * 0.5);
    ScaledBounds(nr, r, x);
    FloorBounds(n, nr, x);
  }

  lemma FloorBounds(n: int, nr: real, x: real)
    requires 15 <= n <= 24 && nr == n as real
    requires 0.3 * nr <= x < 0.8 * nr
    ensures 4 <= x.Floor <= 19 && n - x.Floor >= 4
  {
  }

  /** `n * (0.3 + r * 0.5)` lies in `[0.3 n, 0.8 n)`. */
  lemma ScaledBounds(n: real, r: UnitDraw, x: real)
    requires n > 0.0 && x == n * (0.3 + r * 0.5)
    ensures 0.3 * n <= x < 0.8 * n
  {
    assert x == 0.3 * n + 0.5 * (n * r);
    assert n * r < n * 1.0 by {
      assert n * (1.0 - r) > 0.0;
    }
  }

  /** `Math.floor((Math.random() - 0.5) * 10)`, used for a route's and an alert's delay. */
  function DelayMinutes(r: UnitDraw): (d: int)
    ensures -5 <= d <= 4
  {
    ((r - 0.5) * 10.0).Floor
  }

  /** Every delay in `[-5, 4]` is produced by some draw, so that range is exact. */
  lemma DelayMinutesReaches(d: int)
    requires -5 <= d <= 4
    ensures DelayMinutes((d as real + 5.0) / 10.0) == d
  {
  }

  /** `Math.min(completedCount, allSegments.length - 1)`. */
  function CurrentIndex(c: int, n: int): (i: int)
    requires 0 <= c && n >= 1
    ensures 0 <= i < n
    ensures c < n ==> i == c
    ensures c >= n ==> i == n - 1
  {
    if c < n - 1 then c else n - 1
  }

  /** `generateRoute(routeId, unitId)`. */
  function GenerateRoute(routeId: string, unitId: string, draws: RouteDraws, geometry: Geometry, now: Millis): (r: BusRoute)
    ensures |r.FullPath()| == SegmentCount(draws.segments) && 15 <= |r.FullPath()| <= 24
    ensures forall i :: 0 <= i < |r.FullPath()| ==> r.FullPath()[i] == geometry(i, |r.FullPath()|)
    ensures |r.completedSegments| == CompletedCount(SegmentCount(draws.segments), draws.ratio)
    ensures 4 <= |r.completedSegments| <= 19 && |r.remainingSegments| >= 4
    ensures r.currentPosition.AsPoint() == r.remainingSegments[0]
    ensures r.currentPosition.timestamp == now
    ensures r.id == "route-" + routeId + "-" + unitId
    ensures r.routeId == routeId && r.unitId == unitId
    ensures r.routeName == "Ruta " + routeId
    ensures r.rideStart == now - 20 * MinuteMs && r.rideEnd == now + 15 * MinuteMs
    ensures r.rideStart < now < r.rideEnd && r.rideEnd - r.rideStart == 35 * MinuteMs
    ensures r.delay == DelayMinutes(draws.delay) && -5 <= r.delay <= 4
  {
    var n := SegmentCount(draws.segments);
    var c := CompletedCount(n, draws.ratio);
    var path := seq(n, i requires 0 <= i < n => geometry(i, n));
    var k := CurrentIndex(c, n);
    assert path[..c] + path[c..] == path;
    BusRoute(
      "route-" + routeId + "-" + unitId,
      routeId,
      unitId,
      "Ruta " + routeId,
      path[..c],
      path[c..],
      BusPosition(path[k].lat, path[k].lng, now),
      now - RideStartLeadMs,
      now + RideEndLagMs,
      DelayMinutes(draws.delay))
  }

  // ---------------------------------------------------------------- alerts

  const AlertTypes: seq<AlertType> := [Speeding, UnauthorizedStop, RouteDeviation, SignalLoss]
  const Priorities: seq<AlertPriority> := [High, Medium, Low]

  /** The draws `generateAlert` makes; `id` stands for the fresh `alert-<now>-<random>` string. */
  datatype AlertDraws = AlertDraws(
    kind: UnitDraw,
    priority: UnitDraw,
    location: Point,
    speed: UnitDraw,
    delayGate: UnitDraw,
    delay: UnitDraw,
    stopGate: UnitDraw,
    stop: UnitDraw,
    id: string,
    timestamp: UnitDraw,
    read: UnitDraw)

  /**
   * `alertTypes[Math.floor(Math.random() * alertTypes.length)]`: each type
   * owns a quarter of the draw range, so the choice is uniform.
   */
  function PickType(r: UnitDraw): (t: AlertType)
    ensures forall k :: 0 <= k < |AlertTypes| ==>
      (t == AlertTypes[k] <==> k as real / 4.0 <= r < (k + 1) as real / 4.0)
  {
    AlertTypes[(r * 4.0).Floor]
  }

  /**
   * `priorities[Math.floor(Math.random() * priorities.length)]`: each
   * priority owns a third of the draw range.
   */
  function PickPriority(r: UnitDraw): (p: AlertPriority)
    ensures forall k :: 0 <= k < |Priorities| ==>
      (p == Priorities[k] <==> k as real / 3.0 <= r < (k + 1) as real / 3.0)
  {
    Priorities[(r * 3.0).Floor]
  }

  /** `60 + Math.floor(Math.random() * 40)`. */
  function Speed(r: UnitDraw): (s: int)
    ensures 60 <= s <= 99
  {
    60 + (r * 40.0).Floor
  }

  /** `Math.floor(Math.random() * 3) + 1`. */
  function StopsSkipped(r: UnitDraw): (s: int)
    ensures 1 <= s <= 3
  {
    (r * 3.0).Floor + 1
  }

  /**
   * `new Date(Date.now() - Math.random() * 30 * 60 * 1000)`: a `Date` keeps
   * whole milliseconds, cutting the fraction toward zero (TimeClip).
   */
  function AlertTimestamp(now: Millis, r: UnitDraw): (t: Millis)
    ensures now - AlertWindowMs <= t <= now
    ensures var x := now as real - r * AlertWindowMs as real;
      (x >= 0.0 ==> t as real <= x < t as real + 1.0) && (x < 0.0 ==> t as real - 1.0 < x <= t as real)
  {
    TruncateTowardZero(now as real - r * AlertWindowMs as real)
  }

  /** ECMAScript's ToIntegerOrInfinity on a finite number: drop the fraction, toward zero. */
  function TruncateTowardZero(x: real): (t: int)
    ensures x >= 0.0 ==> t as real <= x < t as real + 1.0
    ensures x < 0.0 ==> t as real - 1.0 < x <= t as real
  {
    if x >= 0.0 then x.Floor else -((-x).Floor)
  }

  /** `generateAlert(routeId, unitId, rideStart, rideEnd)`. */
  function GenerateAlert(routeId: string, unitId: string, rideStart: Millis, rideEnd: Millis, d: AlertDraws, now: Millis): (a: Alert)
    ensures a.routeId == routeId && a.unitId == unitId
    ensures a.kind == PickType(d.kind) && a.priority == PickPriority(d.priority)
    ensures a.rideStart == rideStart && a.rideEnd == rideEnd
    ensures a.details.speed.Some? <==> a.kind == Speeding
    ensures a.details.speed.Some? ==> a.details.speed.value == Speed(d.speed)
    ensures a.details.speed.Some? ==> 60 <= a.details.speed.value <= 99
    ensures a.details.delay.Some? <==> d.delayGate > 0.5
    ensures a.details.delay.Some? ==> a.details.delay.value == DelayMinutes(d.delay)
    ensures a.details.delay.Some? ==> -5 <= a.details.delay.value <= 4
    ensures a.details.stopSkipped.Some? <==> d.stopGate > 0.6
    ensures a.details.stopSkipped.Some? ==> a.details.stopSkipped.value == StopsSkipped(d.stop)
    ensures a.details.stopSkipped.Some? ==> 1 <= a.details.stopSkipped.value <= 3
    ensures a.details.location == Some(d.location)
    ensures a.timestamp == AlertTimestamp(now, d.timestamp)
    ensures now - AlertWindowMs <= a.timestamp <= now
    ensures a.isRead <==> d.read > 0.7
    ensures a.id == d.id
  {
    var kind := PickType(d.kind);
    var details := Details(
      if d.delayGate > 0.5 then Some(DelayMinutes(d.delay)) else None,
      if d.stopGate > 0.6 then Some(StopsSkipped(d.stop)) else None,
      if kind == Speeding then Some(Speed(d.speed)) else None,
      Some(d.location));
    Alert(
      d.id,
      kind,
      PickPriority(d.priority),
      AlertTimestamp(now, d.timestamp),
      unitId,
      routeId,
      rideStart,
      rideEnd,
      details,
      d.read > 0.7)
  }

  // ---------------------------------------------------------------- fleet

  /** The draws for one bus: its route, its path, how many alerts, and each alert's draws. */
  datatype BusDraws = BusDraws(route: RouteDraws, geometry: Geometry, alertCount: UnitDraw, alert: nat -> AlertDraws)

  /** The draws for a whole fleet: how many buses, and each bus's draws. */
  datatype FleetDraws = FleetDraws(buses: UnitDraw, bus: nat -> BusDraws)

  datatype Fleet = Fleet(routes: seq<BusRoute>, alerts: seq<Alert>)

  /** `5 + Math.floor(Math.random() * 4)`. */
  function BusCount(r: UnitDraw): (n: int)
    ensures 5 <= n <= 8
  {
    5 + (r * 4.0).Floor
  }

  /** `2 + Math.floor(Math.random() * 3)`. */
  function AlertCount(r: UnitDraw): (n: int)
    ensures 2 <= n <= 4
  {
    2 + (r * 3.0).Floor
  }

  /** `Bus ${i + 1}`. */
  function UnitName(i: nat): string {
    "Bus " + NatToString(i + 1)
  }

  /** An alert belongs to a route's ride: same unit, same route, same ride window. */
  predicate SharesRide(a: Alert, r: BusRoute) {
    a.unitId == r.unitId && a.routeId == r.routeId && a.rideStart == r.rideStart && a.rideEnd == r.rideEnd
  }

  /** Bus `i`: route `routeIds[i % routeIds.length]`, unit `Bus ${i + 1}`. */
  function BusRouteAt(draws: FleetDraws, i: nat, now: Millis): BusRoute {
    GenerateRoute(RouteIds[i % |RouteIds|], UnitName(i), draws.bus(i).route, draws.bus(i).geometry, now)
  }

  /** The alerts generated for one bus, in generation order. */
  function BusAlerts(route: BusRoute, bd: BusDraws, now: Millis): (alerts: seq<Alert>)
    ensures 2 <= |alerts| <= 4
    ensures forall a :: a in alerts ==> SharesRide(a, route)
  {
    var alerts := seq(AlertCount(bd.alertCount), j requires 0 <= j =>
      GenerateAlert(route.routeId, route.unitId, route.rideStart, route.rideEnd, bd.alert(j), now));
    forall a | a in alerts
      ensures SharesRide(a, route)
    {
      var j :| 0 <= j < |alerts| && alerts[j] == a;
      var g := GenerateAlert(route.routeId, route.unitId, route.rideStart, route.rideEnd, bd.alert(j), now);
      assert a == g;
    }
    alerts
  }

  /** The routes of the first `k` buses. */
  function FleetRoutes(draws: FleetDraws, k: nat, now: Millis): (routes: seq<BusRoute>)
    ensures |routes| == k
    ensures forall i :: 0 <= i < k ==> routes[i] == BusRouteAt(draws, i, now)
  {
    seq(k, i requires 0 <= i => BusRouteAt(draws, i, now))
  }

  /** The alerts of the first `k` buses, in the order they are pushed. */
  function PushedAlerts(draws: FleetDraws, k: nat, now: Millis): (alerts: seq<Alert>)
    ensures 2 * k <= |alerts| <= 4 * k
  {
    if k == 0 then []
    else PushedAlerts(draws, k - 1, now) + BusAlerts(BusRouteAt(draws, k - 1, now), draws.bus(k - 1), now)
  }

  /** Every pushed alert belongs to the ride of one of the first `k` buses. */
  lemma {:induction false} PushedAlertsShareRides(draws: FleetDraws, k: nat, now: Millis)
    ensures forall a :: a in PushedAlerts(draws, k, now) ==>
      exists i :: 0 <= i < k && SharesRide(a, BusRouteAt(draws, i, now))
  {
    if k > 0 {
      var prev, last := PushedAlerts(draws, k - 1, now), BusAlerts(BusRouteAt(draws, k - 1, now), draws.bus(k - 1), now);
      PushedAlertsShareRides(draws, k - 1, now);
      assert PushedAlerts(draws, k, now) == prev + last;
      forall a | a in prev + last
        ensures exists i :: 0 <= i < k && SharesRide(a, BusRouteAt(draws, i, now))
      {
        if a in prev {
          var i :| 0 <= i < k - 1 && SharesRide(a, BusRouteAt(draws, i, now));
        } else {
          assert SharesRide(a, BusRouteAt(draws, k - 1, now));
        }
      }
    }
  }

  /** `generateDummyData()`. */
  function GenerateDummyData(draws: FleetDraws, now: Millis): (f: Fleet)
    ensures |f.routes| == BusCount(draws.buses)
    ensures f.routes == FleetRoutes(draws, |f.routes|, now)
    ensures 5 <= |f.routes| <= 8
    ensures forall i :: 0 <= i < |f.routes| ==>
      f.routes[i].routeId == RouteIds[i % |RouteIds|] && f.routes[i].unitId == UnitName(i)
    ensures 2 * |f.routes| <= |f.alerts| <= 4 * |f.routes|
    ensures 10 <= |f.alerts| <= 32
    ensures Sorted(f.alerts)
    ensures multiset(f.alerts) == multiset(PushedAlerts(draws, |f.routes|, now))
    ensures forall a :: a in f.alerts ==> exists i :: 0 <= i < |f.routes| && SharesRide(a, f.routes[i])
  {
    var n := BusCount(draws.buses);
    var pushed := PushedAlerts(draws, n, now);
    var alerts := SortNewestFirst(pushed);
    forall a | a in alerts
      ensures a in pushed
    {
      SortedMembers(pushed, a);
    }
    PushedAlertsShareRides(draws, n, now);
    Fleet(FleetRoutes(draws, n, now), alerts)
  }

  /**
   * The source's nested loops, pushing routes and alerts one at a time and
   * sorting at the end, compute exactly `GenerateDummyData`.
   */
  method GenerateFleet(draws: FleetDraws, now: Millis) returns (f: Fleet)
    ensures f == GenerateDummyData(draws, now)
  {
    var routes: seq<BusRoute> := [];
    var alerts: seq<Alert> := [];
    var numBuses := BusCount(draws.buses);
    var i := 0;
    while i < numBuses
      invariant 0 <= i <= numBuses
      invariant routes == FleetRoutes(draws, i, now)
      invariant alerts == PushedAlerts(draws, i, now)
    {
      routes, alerts := AddBus(draws, now, i, routes, alerts);
      i := i + 1;
    }
    f := Fleet(routes, SortNewestFirst(alerts));
  }

  /** One iteration of the outer loop: generate bus `i`'s route and push its alerts. */
  method AddBus(draws: FleetDraws, now: Millis, i: nat, routes: seq<BusRoute>, alerts: seq<Alert>)
    returns (routes': seq<BusRoute>, alerts': seq<Alert>)
    requires routes == FleetRoutes(draws, i, now) && alerts == PushedAlerts(draws, i, now)
    ensures routes' == FleetRoutes(draws, i + 1, now) && alerts' == PushedAlerts(draws, i + 1, now)
  {
    var routeId := RouteIds[i % |RouteIds|];
    var unitId := UnitName(i);
    var route := GenerateRoute(routeId, unitId, draws.bus(i).route, draws.bus(i).geometry, now);
    assert route == BusRouteAt(draws, i, now);
    FleetRoutesStep(draws, i, now);
    PushedAlertsStep(draws, i + 1, now);
    routes' := routes + [route];
    alerts' := PushBusAlerts(alerts, route, draws.bus(i), now);
  }

  lemma FleetRoutesStep(draws: FleetDraws, k: nat, now: Millis)
    ensures FleetRoutes(draws, k + 1, now) == FleetRoutes(draws, k, now) + [BusRouteAt(draws, k, now)]
  {
    var a, b := FleetRoutes(draws, k + 1, now), FleetRoutes(draws, k, now) + [BusRouteAt(draws, k, now)];
    assert forall j :: 0 <= j < k + 1 ==> a[j] == b[j];
  }

  /** The inner loop of the source: push one bus's `numAlerts` alerts onto the list. */
  method PushBusAlerts(alerts: seq<Alert>, route: BusRoute, bd: BusDraws, now: Millis) returns (out: seq<Alert>)
    ensures out == alerts + BusAlerts(route, bd, now)
  {
    var numAlerts := AlertCount(bd.alertCount);
    ghost var batch := BusAlerts(route, bd, now);
    out := alerts;
    var j := 0;
    while j < numAlerts
      invariant 0 <= j <= numAlerts
      invariant out == alerts + batch[..j]
    {
      var alert := GenerateAlert(route.routeId, route.unitId, route.rideStart, route.rideEnd, bd.alert(j), now);
      out := out + [alert];
      assert batch[..j + 1] == batch[..j] + [alert];
      j := j + 1;
    }
    assert batch[..numAlerts] == batch;
  }

  /** Distinct buses get distinct unit names: the name determines the bus. */
  lemma UnitNameInjective(i: nat, j: nat)
    requires UnitName(i) == UnitName(j)
    ensures i == j
  {
    PrefixCancel("Bus ", NatToString(i + 1), NatToString(j + 1));
    NatToStringInjective(i + 1, j + 1);
  }

  /** No unit name contains a dash. */
  lemma UnitNameHasNoDash(i: nat)
    ensures '-' !in UnitName(i)
  {
    var u, digits := UnitName(i), NatToString(i + 1);
    forall k | 0 <= k < |u|
      ensures u[k] != '-'
    {
      if k >= 4 {
        assert u[k] == digits[k - 4];
      }
    }
  }

  /** A generated route's `id` determines its bus. */
  lemma RouteIdInjective(draws: FleetDraws, now: Millis, i: nat, j: nat)
    requires BusRouteAt(draws, i, now).id == BusRouteAt(draws, j, now).id
    ensures i == j
  {
    var ri, rj := RouteIds[i % |RouteIds|], RouteIds[j % |RouteIds|];
    RouteIdShape(draws, now, i);
    RouteIdShape(draws, now, j);
    RouteIdTextInjective(ri, rj, i, j);
  }

  lemma RouteIdShape(draws: FleetDraws, now: Millis, i: nat)
    ensures BusRouteAt(draws, i, now).id == "route-" + (RouteIds[i % |RouteIds|] + "-" + UnitName(i))
    ensures '-' !in RouteIds[i % |RouteIds|]
  {
  }

  lemma RouteIdTextInjective(ri: string, rj: string, i: nat, j: nat)
    requires '-' !in ri && '-' !in rj
    requires "route-" + (ri + "-" + UnitName(i)) == "route-" + (rj + "-" + UnitName(j))
    ensures i == j
  {
    PrefixCancel("route-", ri + "-" + UnitName(i), rj + "-" + UnitName(j));
    SplitAtSeparator(ri, UnitName(i), rj, UnitName(j), '-');
    UnitNameInjective(i, j);
  }

  /** Every generated route has its own `id`: no two buses share one. */
  lemma FleetRouteIdsDistinct(draws: FleetDraws, now: Millis)
    ensures var f := GenerateDummyData(draws, now);
      forall i, j :: 0 <= i < |f.routes| && 0 <= j < |f.routes| && f.routes[i].id == f.routes[j].id ==> i == j
  {
    var f := GenerateDummyData(draws, now);
    forall i, j | 0 <= i < |f.routes| && 0 <= j < |f.routes| && f.routes[i].id == f.routes[j].id
      ensures i == j
    {
      RouteIdInjective(draws, now, i, j);
    }
  }

  /** The test "this alert is for unit `u`", as a filter predicate. */
  function OfUnit(u: string): Alert -> bool {
    (a: Alert) => a.unitId == u
  }

  /** One bus's batch is all of unit `u`'s alerts when `u` is that bus, and none otherwise. */
  lemma BusAlertsOfUnit(route: BusRoute, bd: BusDraws, now: Millis, u: string)
    ensures |Filter(BusAlerts(route, bd, now), OfUnit(u))|
      == if u == route.unitId then |BusAlerts(route, bd, now)| else 0
  {
    var last := BusAlerts(route, bd, now);
    assert forall m :: 0 <= m < |last| ==> last[m] in last;
    if u == route.unitId {
      assert forall m :: 0 <= m < |last| ==> OfUnit(u)(last[m]);
    } else {
      assert forall m :: 0 <= m < |last| ==> !OfUnit(u)(last[m]);
    }
  }

  /** Among the pushed alerts of the first `k` buses, bus `i` owns exactly its own batch. */
  lemma PushedAlertsOfUnit(draws: FleetDraws, k: nat, i: nat, now: Millis)
    ensures |Filter(PushedAlerts(draws, k, now), OfUnit(UnitName(i)))|
      == if i < k then AlertCount(draws.bus(i).alertCount) else 0
  {
    var tally := (j: nat) => |Filter(PushedAlerts(draws, j, now), OfUnit(UnitName(i)))|;
    forall j: nat | 0 < j <= k
      ensures tally(j) == tally(j - 1) + if i == j - 1 then AlertCount(draws.bus(i).alertCount) else 0
    {
      UnitCountStep(draws, j, i, now);
    }
    TallyByOwner(tally, k, i, AlertCount(draws.bus(i).alertCount));
  }

  /**
   * A running count that starts at zero and grows by `size` only at step
   * `owner` is `size` once that step is passed, and zero before.
   */
  lemma {:induction false} TallyByOwner(tally: nat -> int, k: nat, owner: nat, size: int)
    requires tally(0) == 0
    requires forall j: nat :: 0 < j <= k ==> tally(j) == tally(j - 1) + if owner == j - 1 then size else 0
    ensures tally(k) == if owner < k then size else 0
  {
    if k > 0 {
      TallyByOwner(tally, k - 1, owner, size);
    }
  }

  /** Pushing bus `k - 1`'s batch adds to unit `i`'s count exactly that batch's share. */
  lemma UnitCountStep(draws: FleetDraws, k: nat, i: nat, now: Millis)
    requires k > 0
    ensures |Filter(PushedAlerts(draws, k, now), OfUnit(UnitName(i)))|
      == |Filter(PushedAlerts(draws, k - 1, now), OfUnit(UnitName(i)))|
        + if i == k - 1 then AlertCount(draws.bus(i).alertCount) else 0
  {
    var prev, last := PushedAlerts(draws, k - 1, now), BusAlerts(BusRouteAt(draws, k - 1, now), draws.bus(k - 1), now);
    LastBatchOfUnit(draws, k, i, now);
    PushedAlertsStep(draws, k, now);
    FilterAppend(prev, last, OfUnit(UnitName(i)));
  }

  /** The batch of bus `k - 1` counts for unit `i` exactly when `i` is that bus. */
  lemma LastBatchOfUnit(draws: FleetDraws, k: nat, i: nat, now: Millis)
    requires k > 0
    ensures var route := BusRouteAt(draws, k - 1, now);
      |Filter(BusAlerts(route, draws.bus(k - 1), now), OfUnit(UnitName(i)))|
        == if i == k - 1 then AlertCount(draws.bus(i).alertCount) else 0
  {
    var route := BusRouteAt(draws, k - 1, now);
    PushedAlertsStep(draws, k, now);
    BusAlertsOfUnit(route, draws.bus(k - 1), now, UnitName(i));
    if UnitName(i) == route.unitId {
      UnitNameInjective(i, k - 1);
    }
  }

  lemma PushedAlertsStep(draws: FleetDraws, k: nat, now: Millis)
    requires k > 0
    ensures PushedAlerts(draws, k, now)
      == PushedAlerts(draws, k - 1, now) + BusAlerts(BusRouteAt(draws, k - 1, now), draws.bus(k - 1), now)
    ensures BusRouteAt(draws, k - 1, now).unitId == UnitName(k - 1)
    ensures |BusAlerts(BusRouteAt(draws, k - 1, now), draws.bus(k - 1), now)| == AlertCount(draws.bus(k - 1).alertCount)
  {
  }

  /** Each bus of a generated fleet has between 2 and 4 alerts carrying its unit id. */
  lemma FleetAlertsPerBus(draws: FleetDraws, now: Millis, i: nat)
    requires i < BusCount(draws.buses)
    ensures var f := GenerateDummyData(draws, now);
      2 <= |Filter(f.alerts, OfUnit(f.routes[i].unitId))| <= 4
  {
    var f := GenerateDummyData(draws, now);
    var n := |f.routes|;
    assert f.routes[i].unitId == UnitName(i);
    PushedAlertsOfUnit(draws, n, i, now);
    FilterPermutation(f.alerts, PushedAlerts(draws, n, now), OfUnit(UnitName(i)));
  }
}
