/** The geotification entity and the map circle drawn for it. Coordinates and
    radii are `Double`s in the app that are only copied and compared with
    `==`, so they are `real`s here and no arithmetic is done on them. */
module Geotify {

  datatype EventType = OnEntry | OnExit

  datatype Coordinate = Coordinate(latitude: real, longitude: real)

  /** One geofence definition. Equality is equality of the whole value. */
  datatype Geotification = Geotification(
    coordinate: Coordinate,
    radius: real,
    identifier: string,
    note: string,
    eventType: EventType)

  /** An overlay on the map: a circle (`MKCircle`) or some other shape that
      the geotification code never draws and never removes. */
  datatype Overlay = Circle(center: Coordinate, radius: real) | OtherOverlay

  /** The circle `addRadiusOverlayForGeotification` puts on the map for `g`. */
  function CircleOf(g: Geotification): (c: Overlay)
    ensures c.Circle? && c.center == g.coordinate && c.radius == g.radius
  {
    Circle(g.coordinate, g.radius)
  }

  /** The test of `removeRadiusOverlayForGeotification`: the overlay is a
      circle whose latitude, longitude and radius all equal `g`'s. It holds
      of exactly one overlay value, the circle drawn for `g`. */
  predicate CircleMatches(o: Overlay, g: Geotification)
    ensures CircleMatches(o, g) <==> o == CircleOf(g)
  {
    o.Circle?
    && o.center.latitude == g.coordinate.latitude
    && o.center.longitude == g.coordinate.longitude
    && o.radius == g.radius
  }
}
