/** The transit schedule: stop facilities and lines, a line holding routes and a
    route holding its departures. The route's departures and the schedule's
    collections grow in place. */
module Schedule {
  import opened Entities

  /** A route served along a fixed link path, stopping at `stops`, with the departures added so far
      in the order they were added. */
  class TransitRoute {
    const id: RouteId
    const route: NetworkRoute
    const stops: seq<RouteStop>
    const mode: string
    var departures: seq<Departure>

    constructor (id: RouteId, route: NetworkRoute, stops: seq<RouteStop>, mode: string)
      ensures this.id == id && this.route == route && this.stops == stops && this.mode == mode
      ensures departures == []
    {
      this.id := id;
      this.route := route;
      this.stops := stops;
      this.mode := mode;
      departures := [];
    }

    /** Appends a departure; a route never holds two departures with the same id. */
    method AddDeparture(departure: Departure)
      requires forall k :: 0 <= k < |departures| ==> departures[k].id != departure.id
      modifies this
      ensures departures == old(departures) + [departure]
    {
      departures := departures + [departure];
    }
  }

  /** A named line holding routes by id. */
  class TransitLine {
    const id: LineId
    var routes: map<RouteId, TransitRoute>

    constructor (id: LineId)
      ensures this.id == id && routes == map[]
    {
      this.id := id;
      routes := map[];
    }

    method AddRoute(route: TransitRoute)
      requires route.id !in routes
      modifies this
      ensures routes == old(routes)[route.id := route]
    {
      routes := routes[route.id := route];
    }
  }

  class TransitSchedule {
    var facilities: map<StopFacilityId, StopFacility>
    var lines: map<LineId, TransitLine>

    /** Every facility and every line is filed under its own id. */
    ghost predicate Valid()
      reads this
    {
      && (forall f :: f in facilities ==> facilities[f].id == f)
      && (forall l :: l in lines ==> lines[l].id == l)
    }

    constructor ()
      ensures Valid() && facilities == map[] && lines == map[]
    {
      facilities := map[];
      lines := map[];
    }

    method AddStopFacility(facility: StopFacility)
      requires Valid()
      requires facility.id !in facilities
      modifies this
      ensures Valid()
      ensures facilities == old(facilities)[facility.id := facility]
      ensures lines == old(lines)
    {
      facilities := facilities[facility.id := facility];
    }

    method AddTransitLine(line: TransitLine)
      requires Valid()
      requires line.id !in lines
      modifies this
      ensures Valid()
      ensures lines == old(lines)[line.id := line]
      ensures facilities == old(facilities)
    {
      lines := lines[line.id := line];
    }
  }
}
