/**
 * The fleet-monitoring data model (`src/shared/types/monitoring.ts`):
 * alerts, bus routes and the points they are made of.
 *
 * Times are JavaScript `Date` values, i.e. whole milliseconds since the epoch.
 * Coordinates are kept as reals; the model never computes with their exact
 * values beyond comparing them.
 */
module Monitoring {
  import opened Wrappers

  /** Milliseconds since the epoch, the integer a `Date` holds. */
  type Millis = int

  const MinuteMs: int := 60 * 1000

  /** The four alert kinds; the comment gives the wire name used by the source. */
  datatype AlertType =
    | Speeding          // "exceso_velocidad"
    | UnauthorizedStop  // "detencion_no_autorizada"
    | RouteDeviation    // "salida_ruta"
    | SignalLoss        // "perdida_senal"

  datatype AlertPriority =
    | High    // "alta"
    | Medium  // "media"
    | Low     // "baja"

  /** A waypoint of a route (`RouteSegment`), also used for any map coordinate. */
  datatype Point = Point(lat: real, lng: real)

  /** Where a bus is, and when that was observed. */
  datatype BusPosition = BusPosition(lat: real, lng: real, timestamp: Millis) {
    function AsPoint(): Point {
      Point(lat, lng)
    }
  }

  /** The optional payload of an alert; every field may be absent. */
  datatype Details = Details(
    delay: Option<int>,        // minutes
    stopSkipped: Option<int>,
    speed: Option<int>,        // km/h
    location: Option<Point>)

  datatype Alert = Alert(
    id: string,
    kind: AlertType,
    priority: AlertPriority,
    timestamp: Millis,
    unitId: string,
    routeId: string,
    rideStart: Millis,
    rideEnd: Millis,
    details: Details,
    isRead: bool)

  datatype BusRoute = BusRoute(
    id: string,
    routeId: string,
    unitId: string,
    routeName: string,
    completedSegments: seq<Point>,
    remainingSegments: seq<Point>,
    currentPosition: BusPosition,
    rideStart: Millis,
    rideEnd: Millis,
    delay: int)                // minutes; negative means ahead of schedule
  {
    /** The whole planned path, completed part first. */
    function FullPath(): seq<Point> {
      completedSegments + remainingSegments
    }
  }

  /** JavaScript truthiness of an optional number: absent and 0 are both falsy. */
  predicate NumberIsTruthy(n: Option<int>) {
    n.Some? && n.value != 0
  }
}
