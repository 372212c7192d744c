/** The records the shuttle generator creates. Identifiers are tagged values:
    names where the program uses a literal string, the tick for the per-departure
    ids that the program builds as "departure_" + t and "shuttle_vehicle_" + t. */
module Entities {

  datatype Option<T> = None | Some(value: T)

  /** A planar coordinate; only ever copied, never computed with. */
  datatype Coord = Coord(x: real, y: real)

  datatype NodeId = NodeId(name: string)
  datatype LinkId = LinkId(name: string)
  datatype StopFacilityId = StopFacilityId(name: string)
  datatype RouteId = RouteId(name: string)
  datatype LineId = LineId(name: string)
  datatype VehicleTypeId = VehicleTypeId(name: string)
  datatype DepartureId = DepartureId(tick: int)
  datatype VehicleId = VehicleId(tick: int)

  /** The transport mode of public transit. */
  const Pt: string := "pt"

  datatype Node = Node(id: NodeId, coord: Coord)

  /** A directed link between two nodes, referenced by id. */
  datatype Link = Link(
    id: LinkId,
    from: NodeId,
    to: NodeId,
    allowedModes: set<string>,
    freespeed: int,
    capacity: int)

  datatype VehicleType = VehicleType(
    id: VehicleTypeId,
    length: int,
    pcuEquivalents: int,
    maximumVelocity: int,
    networkMode: string,
    description: string,
    seats: int,
    standingRoom: int)

  datatype Vehicle = Vehicle(id: VehicleId, typeId: VehicleTypeId)

  /** A stop facility sits at a coordinate and serves one link. */
  datatype StopFacility = StopFacility(
    id: StopFacilityId,
    coord: Coord,
    linkId: LinkId,
    isBlockingLane: bool)

  /** One visit of a route to a stop facility, with offsets in seconds from the trip start. */
  datatype RouteStop = RouteStop(facility: StopFacility, arrivalOffset: int, departureOffset: int)

  /** A link path given as first link, interior links and last link. */
  datatype NetworkRoute = NetworkRoute(startLinkId: LinkId, linkIds: seq<LinkId>, endLinkId: LinkId)
  {
    /** The whole path, first link to last link. */
    function Path(): (p: seq<LinkId>)
      ensures |p| == |linkIds| + 2
      ensures p[0] == startLinkId && p[|p| - 1] == endLinkId
      ensures p[1..|p| - 1] == linkIds
    {
      [startLinkId] + linkIds + [endLinkId]
    }
  }

  /** A timed trip along a route, served by one vehicle. */
  datatype Departure = Departure(id: DepartureId, time: int, vehicleId: VehicleId)

  /** Every link of `path` is in `links`, and each link ends where the next one starts. */
  ghost predicate Contiguous(links: map<LinkId, Link>, path: seq<LinkId>)
  {
    && (forall k :: 0 <= k < |path| ==> path[k] in links)
    && (forall k :: 0 <= k < |path| - 1 ==> links[path[k]].to == links[path[k + 1]].from)
  }

  /** Each stop departs no earlier than it arrives, and no stop is reached before the
      previous one is left. */
  ghost predicate OffsetsOrdered(stops: seq<RouteStop>)
  {
    && (forall k :: 0 <= k < |stops| ==> stops[k].arrivalOffset <= stops[k].departureOffset)
    && (forall k :: 0 <= k < |stops| - 1 ==> stops[k].departureOffset <= stops[k + 1].arrivalOffset)
  }

  /** No two departures share an id and no two share a vehicle. */
  ghost predicate DistinctDepartures(ds: seq<Departure>)
  {
    forall j, k :: 0 <= j < k < |ds| ==> ds[j].id != ds[k].id && ds[j].vehicleId != ds[k].vehicleId
  }
}
