/** The shuttle generator: extends a loaded network by a transit-only path between two
    anchor nodes, creates two stop facilities on it, a route with two timed stops, one
    departure and one dedicated vehicle per five-minute tick between 09:00 and 13:00,
    and a line holding the route. Each step is a method growing the network, the
    schedule or the fleet in place; the ghost predicates below state what the
    finished state looks like and the lemmas derive what it guarantees. */
module ZooShuttle {
  import opened Entities
  import opened Timetable
  import opened Network
  import opened Schedule
  import opened Fleet
  import opened Departures

  const ShuttleTypeId := VehicleTypeId("shuttle")

  const PtStartId := NodeId("pt_start")
  const PtEndId := NodeId("pt_end")
  /** The existing nodes the shuttle path runs through, in this order. */
  const FromAnchorId := NodeId("29589035")
  const ToAnchorId := NodeId("3667621813")

  /** The new nodes sit 100 units beyond two fixed points, diagonally. */
  const StartCoord := Coord(544006.781992937 + 100.0, 5847658.641000098 + 100.0)
  const EndCoord := Coord(541785.9309178652 - 100.0, 5844877.673792916 - 100.0)

  const StartLinkId := LinkId("pt_1")
  const ConnectionId := LinkId("pt_2")
  const EndLinkId := LinkId("pt_3")

  const FromStopId := StopFacilityId("Stop_1")
  const ToStopId := StopFacilityId("Stop_2")
  const ShuttleRouteId := RouteId("route-1")
  const ShuttleLineId := LineId("Shuttle")

  /** Service window [09:00, 13:00) in seconds, one departure every five minutes. */
  const ServiceStart := 9 * 3600
  const ServiceEnd := 13 * 3600
  const Headway := 300

  /** The shuttle's link path, first link to last. */
  const ShuttlePath := [StartLinkId, ConnectionId, EndLinkId]

  // ---------------------------------------------------------------------------
  // Specification

  /** A link from `from` to `to` open to transit only, at a free speed and capacity
      high enough never to constrain the simulation. */
  ghost predicate TransitLink(link: Link, from: NodeId, to: NodeId)
  {
    && link.from == from && link.to == to
    && link.allowedModes == {Pt} && link.freespeed == 100 && link.capacity == 10000
  }

  /** (nodes, links) is (nodes0, links0) with every original entry unchanged, plus exactly
      the two shuttle nodes and the three shuttle links start -> anchor -> anchor -> end. */
  ghost predicate ShuttleExtension(
    nodes0: map<NodeId, Node>, links0: map<LinkId, Link>,
    nodes: map<NodeId, Node>, links: map<LinkId, Link>)
  {
    && nodes.Keys == nodes0.Keys + {PtStartId, PtEndId}
    && links.Keys == links0.Keys + {StartLinkId, ConnectionId, EndLinkId}
    && (forall n :: n in nodes0 ==> nodes[n] == nodes0[n])
    && (forall l :: l in links0 ==> links[l] == links0[l])
    && nodes[PtStartId] == Node(PtStartId, StartCoord)
    && nodes[PtEndId] == Node(PtEndId, EndCoord)
    && links[StartLinkId].id == StartLinkId && TransitLink(links[StartLinkId], PtStartId, FromAnchorId)
    && links[ConnectionId].id == ConnectionId && TransitLink(links[ConnectionId], FromAnchorId, ToAnchorId)
    && links[EndLinkId].id == EndLinkId && TransitLink(links[EndLinkId], ToAnchorId, PtEndId)
  }

  /** A network the shuttle can be grafted onto: both anchors exist and none of the new ids is taken. */
  ghost predicate Extendable(nodes: map<NodeId, Node>, links: map<LinkId, Link>)
  {
    && FromAnchorId in nodes && ToAnchorId in nodes
    && PtStartId !in nodes && PtEndId !in nodes
    && StartLinkId !in links && ConnectionId !in links && EndLinkId !in links
  }

  /** Stop_1 serves the first link at the start node, Stop_2 the last link at the end node. */
  ghost predicate ShuttleFacilities(facilities: map<StopFacilityId, StopFacility>, nodes: map<NodeId, Node>)
    requires PtStartId in nodes && PtEndId in nodes
  {
    && facilities.Keys == {FromStopId, ToStopId}
    && facilities[FromStopId] == StopFacility(FromStopId, nodes[PtStartId].coord, StartLinkId, false)
    && facilities[ToStopId] == StopFacility(ToStopId, nodes[PtEndId].coord, EndLinkId, false)
  }

  /** The route's path is contiguous in `links`, its first and last stops serve the path's
      first and last links, and its stop offsets are ordered. */
  ghost predicate RouteAligned(links: map<LinkId, Link>, route: NetworkRoute, stops: seq<RouteStop>)
  {
    && Contiguous(links, route.Path())
    && |stops| > 0
    && stops[0].facility.linkId == route.Path()[0]
    && stops[|stops| - 1].facility.linkId == route.Path()[|route.Path()| - 1]
    && OffsetsOrdered(stops)
  }

  // ---------------------------------------------------------------------------
  // Properties

  /** The literal ids the generator uses are pairwise distinct. */
  lemma DistinctIds()
    ensures PtStartId != PtEndId && PtStartId != FromAnchorId && PtStartId != ToAnchorId
    ensures PtEndId != FromAnchorId && PtEndId != ToAnchorId && FromAnchorId != ToAnchorId
    ensures StartLinkId != ConnectionId && StartLinkId != EndLinkId && ConnectionId != EndLinkId
    ensures FromStopId != ToStopId
  {
  }

  /** The extended network has exactly two more nodes and three more links than the original. */
  lemma ExtensionSizes(
    nodes0: map<NodeId, Node>, links0: map<LinkId, Link>,
    nodes: map<NodeId, Node>, links: map<LinkId, Link>)
    requires Extendable(nodes0, links0)
    requires ShuttleExtension(nodes0, links0, nodes, links)
    ensures |nodes| == |nodes0| + 2 && |links| == |links0| + 3
  {
    DistinctIds();
    SizeWithFreshKeys(nodes0, nodes, {PtStartId, PtEndId});
    SizeWithFreshKeys(links0, links, {StartLinkId, ConnectionId, EndLinkId});
  }

  /** A map whose keys are those of `m0` plus `added`, none of them already in `m0`, has
      |added| more entries. */
  lemma SizeWithFreshKeys<K, V>(m0: map<K, V>, m: map<K, V>, added: set<K>)
    requires m.Keys == m0.Keys + added && m0.Keys !! added
    ensures |m| == |m0| + |added|
  {
    assert |m.Keys| == |m0.Keys| + |added|;
  }

  /** The new links form a contiguous path from the start node through both anchors to the
      end node, and each joins two distinct nodes of the extended network. */
  lemma ShuttlePathResolves(
    nodes0: map<NodeId, Node>, links0: map<LinkId, Link>,
    nodes: map<NodeId, Node>, links: map<LinkId, Link>)
    requires Extendable(nodes0, links0)
    requires ShuttleExtension(nodes0, links0, nodes, links)
    ensures Contiguous(links, ShuttlePath)
    ensures links[StartLinkId].from == PtStartId && links[EndLinkId].to == PtEndId
    ensures forall k :: 0 <= k < |ShuttlePath| ==>
              links[ShuttlePath[k]].from in nodes && links[ShuttlePath[k]].to in nodes
              && links[ShuttlePath[k]].from != links[ShuttlePath[k]].to
  {
    DistinctIds();
    assert ShuttlePath[0] == StartLinkId && ShuttlePath[1] == ConnectionId && ShuttlePath[2] == EndLinkId;
  }

  /** Registering two records under different ids gives the same index in either order. */
  lemma UpdatesCommute<K, V>(m: map<K, V>, a: K, x: V, b: K, y: V)
    requires a != b
    ensures m[a := x][b := y] == m[b := y][a := x]
  {
    assert m[a := x][b := y].Keys == m[b := y][a := x].Keys;
  }

  /** Adding the two nodes and three links to an extendable network yields its shuttle extension. */
  lemma ExtensionByUpdates(
    nodes0: map<NodeId, Node>, links0: map<LinkId, Link>,
    startNode: Node, endNode: Node, startLink: Link, connection: Link, endLink: Link)
    requires Extendable(nodes0, links0)
    requires startNode == Node(PtStartId, StartCoord) && endNode == Node(PtEndId, EndCoord)
    requires startLink.id == StartLinkId && TransitLink(startLink, PtStartId, FromAnchorId)
    requires connection.id == ConnectionId && TransitLink(connection, FromAnchorId, ToAnchorId)
    requires endLink.id == EndLinkId && TransitLink(endLink, ToAnchorId, PtEndId)
    ensures ShuttleExtension(nodes0, links0,
                             nodes0[PtStartId := startNode][PtEndId := endNode],
                             links0[StartLinkId := startLink][ConnectionId := connection][EndLinkId := endLink])
  {
    DistinctIds();
  }

  /** The shuttle route lies on the extended network, starts at Stop_1 and ends at Stop_2. */
  lemma ShuttleRouteAligned(
    nodes0: map<NodeId, Node>, links0: map<LinkId, Link>,
    nodes: map<NodeId, Node>, links: map<LinkId, Link>,
    facilities: map<StopFacilityId, StopFacility>)
    requires Extendable(nodes0, links0)
    requires ShuttleExtension(nodes0, links0, nodes, links)
    requires ShuttleFacilities(facilities, nodes)
    ensures RouteAligned(links, NetworkRoute(StartLinkId, [ConnectionId], EndLinkId),
                         [RouteStop(facilities[FromStopId], 0, 10), RouteStop(facilities[ToStopId], 3600, 3610)])
    ensures facilities[FromStopId].linkId in links && facilities[ToStopId].linkId in links
  {
    ShuttlePathResolves(nodes0, links0, nodes, links);
    assert NetworkRoute(StartLinkId, [ConnectionId], EndLinkId).Path() == ShuttlePath;
  }

  /** The shuttle runs 48 times, every five minutes from 09:00; the last departure leaves at
      12:55 and none leaves at or after 13:00. */
  lemma ShuttleDepartures()
    ensures |DeparturesAt(Ticks(ServiceStart, ServiceEnd, Headway))| == 48
    ensures forall k :: 0 <= k < 48 ==>
              DeparturesAt(Ticks(ServiceStart, ServiceEnd, Headway))[k].time == 32400 + 300 * k
    ensures DeparturesAt(Ticks(ServiceStart, ServiceEnd, Headway))[47].time == 46500
  {
    ShuttleTicks();
    DeparturesFollowTicks(ServiceStart, ServiceEnd, Headway);
  }

  // ---------------------------------------------------------------------------
  // Generation steps

  /** Creates the vehicle type `shuttle` and registers it in the fleet. */
  method RegisterShuttleType(fleet: Fleet) returns (vehicleType: VehicleType)
    requires fleet.Valid() && ShuttleTypeId !in fleet.vehicleTypes
    modifies fleet
    ensures fleet.Valid()
    ensures vehicleType == VehicleType(ShuttleTypeId, 20, 2, 36, Pt, "shuttle vehicle type", 10000, 0)
    ensures fleet.vehicleTypes == old(fleet.vehicleTypes)[ShuttleTypeId := vehicleType]
    ensures fleet.vehicles == old(fleet.vehicles)
  {
    vehicleType := VehicleType(ShuttleTypeId, 0, 0, 0, "", "", 0, 0);
    vehicleType := vehicleType.(length := 20);
    vehicleType := vehicleType.(pcuEquivalents := 2);
    vehicleType := vehicleType.(maximumVelocity := 36);
    vehicleType := vehicleType.(networkMode := Pt);
    vehicleType := vehicleType.(description := "shuttle vehicle type");
    vehicleType := vehicleType.(seats := 10000);
    vehicleType := vehicleType.(standingRoom := 0);
    fleet.AddVehicleType(vehicleType);
  }

  /** A new transit-only link from `from` to `to`. */
  method CreateLink(id: LinkId, from: Node, to: Node) returns (link: Link)
    ensures link.id == id && TransitLink(link, from.id, to.id)
  {
    link := Link(id, from.id, to.id, {}, 0, 0);
    link := link.(allowedModes := {Pt});
    link := link.(freespeed := 100);
    link := link.(capacity := 10000);
  }

  /** Adds the start and end nodes and the three links start -> anchor -> anchor -> end.
      The connection is added first; the result does not depend on that order. */
  method ExtendNetwork(network: Network)
    returns (startNode: Node, endNode: Node, startLink: Link, connection: Link, endLink: Link)
    requires network.Valid()
    requires Extendable(network.nodes, network.links)
    modifies network
    ensures network.Valid()
    ensures ShuttleExtension(old(network.nodes), old(network.links), network.nodes, network.links)
    ensures network.nodes == old(network.nodes)[PtStartId := startNode][PtEndId := endNode]
    ensures network.links == old(network.links)[StartLinkId := startLink][ConnectionId := connection][EndLinkId := endLink]
  {
    ghost var nodes0, links0 := network.nodes, network.links;
    DistinctIds();
    startNode := Node(PtStartId, StartCoord);
    network.AddNode(startNode);
    var fromNode := network.GetNode(FromAnchorId);
    var toNode := network.GetNode(ToAnchorId);
    endNode := Node(PtEndId, EndCoord);
    network.AddNode(endNode);
    startLink := CreateLink(StartLinkId, startNode, fromNode.value);
    connection := CreateLink(ConnectionId, fromNode.value, toNode.value);
    endLink := CreateLink(EndLinkId, toNode.value, endNode);
    network.AddLink(connection);
    network.AddLink(startLink);
    network.AddLink(endLink);
    UpdatesCommute(links0, ConnectionId, connection, StartLinkId, startLink);
    ExtensionByUpdates(nodes0, links0, startNode, endNode, startLink, connection, endLink);
  }

  /** Creates Stop_1 on the start link at the start node and Stop_2 on the end link at the end
      node, and registers both. Each link must be in the network before a stop refers to it. */
  method CreateStopFacilities(schedule: TransitSchedule, network: Network,
                              startNode: Node, endNode: Node, startLink: Link, endLink: Link)
    returns (fromFacility: StopFacility, toFacility: StopFacility)
    requires schedule.Valid() && FromStopId !in schedule.facilities && ToStopId !in schedule.facilities
    requires startLink.id in network.links && endLink.id in network.links
    modifies schedule
    ensures schedule.Valid()
    ensures fromFacility == StopFacility(FromStopId, startNode.coord, startLink.id, false)
    ensures toFacility == StopFacility(ToStopId, endNode.coord, endLink.id, false)
    ensures schedule.facilities == old(schedule.facilities)[FromStopId := fromFacility][ToStopId := toFacility]
    ensures schedule.lines == old(schedule.lines)
  {
    fromFacility := StopFacility(FromStopId, startNode.coord, startLink.id, false);
    toFacility := StopFacility(ToStopId, endNode.coord, endLink.id, false);
    schedule.AddStopFacility(fromFacility);
    schedule.AddStopFacility(toFacility);
  }

  /** Builds the route start link, connection, end link, stopping at the first facility at
      offsets (0, 10) and at the second at (3600, 3610). Both facilities must already be
      registered in the schedule. */
  method BuildRoute(schedule: TransitSchedule, fromFacility: StopFacility, toFacility: StopFacility,
                    startLink: Link, connection: Link, endLink: Link)
    returns (route: TransitRoute)
    requires fromFacility.id in schedule.facilities && schedule.facilities[fromFacility.id] == fromFacility
    requires toFacility.id in schedule.facilities && schedule.facilities[toFacility.id] == toFacility
    ensures fresh(route)
    ensures route.id == ShuttleRouteId && route.mode == Pt
    ensures route.route == NetworkRoute(startLink.id, [connection.id], endLink.id)
    ensures route.stops == [RouteStop(fromFacility, 0, 10), RouteStop(toFacility, 3600, 3610)]
    ensures route.departures == []
  {
    var fromStop := RouteStop(fromFacility, 0, 10);
    var toStop := RouteStop(toFacility, 3600, 3610);
    var networkRoute := NetworkRoute(startLink.id, [connection.id], endLink.id);
    route := new TransitRoute(ShuttleRouteId, networkRoute, [fromStop, toStop], Pt);
  }

  /** Wraps the route into the line `Shuttle` and registers the line in the schedule. */
  method AssembleLine(schedule: TransitSchedule, route: TransitRoute) returns (line: TransitLine)
    requires schedule.Valid() && ShuttleLineId !in schedule.lines
    modifies schedule
    ensures fresh(line)
    ensures schedule.Valid()
    ensures line.id == ShuttleLineId && line.routes == map[route.id := route]
    ensures schedule.lines == old(schedule.lines)[ShuttleLineId := line]
    ensures schedule.facilities == old(schedule.facilities)
  {
    line := new TransitLine(ShuttleLineId);
    line.AddRoute(route);
    schedule.AddTransitLine(line);
  }

  /** Merging into an empty map adds exactly the merged entries. */
  lemma EmptyMerge<K, V>(m: map<K, V>)
    ensures map[] + m == m
  {
  }

  /** The departure loop with the shuttle's service window and headway: a departure and
      a vehicle of the shuttle type for every tick from 09:00 up to (excluding) 13:00,
      each departure served by its own vehicle. */
  method ScheduleShuttleDepartures(route: TransitRoute, fleet: Fleet, typeId: VehicleTypeId)
    requires route.departures == [] && fleet.vehicles == map[]
    requires fleet.Valid() && typeId == ShuttleTypeId && typeId in fleet.vehicleTypes
    modifies route, fleet
    ensures fleet.Valid() && fleet.vehicleTypes == old(fleet.vehicleTypes)
    ensures route.departures == DeparturesAt(Ticks(ServiceStart, ServiceEnd, Headway))
    ensures fleet.vehicles == VehiclesAt(Ticks(ServiceStart, ServiceEnd, Headway), ShuttleTypeId)
    ensures ServedOneToOne(route.departures, fleet.vehicles, ShuttleTypeId)
  {
    var start, end, step := ServiceStart, ServiceEnd, Headway;
    ghost var ticks := Ticks(start, end, step);
    AddDepartures(route, fleet, typeId, start, end, step);
    assert fleet.vehicles == VehiclesAt(ticks, typeId) by {
      EmptyMerge(VehiclesAt(ticks, typeId));
    }
    assert route.departures == DeparturesAt(ticks);
    DeparturesServedOneToOne(start, end, step, typeId);
  }

  /** The network and route half of the generator: grafts the shuttle path onto the
      network, places the two stop facilities and builds the route between them. */
  method BuildShuttleRoute(network: Network, schedule: TransitSchedule) returns (route: TransitRoute)
    requires network.Valid() && Extendable(network.nodes, network.links)
    requires schedule.Valid() && schedule.facilities == map[] && schedule.lines == map[]
    modifies network, schedule
    ensures fresh(route)
    ensures network.Valid()
    ensures ShuttleExtension(old(network.nodes), old(network.links), network.nodes, network.links)
    ensures schedule.Valid() && schedule.lines == map[]
    ensures ShuttleFacilities(schedule.facilities, network.nodes)
    ensures route.id == ShuttleRouteId && route.mode == Pt && route.departures == []
    ensures route.route == NetworkRoute(StartLinkId, [ConnectionId], EndLinkId)
    ensures route.stops == [RouteStop(schedule.facilities[FromStopId], 0, 10), RouteStop(schedule.facilities[ToStopId], 3600, 3610)]
    ensures RouteAligned(network.links, route.route, route.stops)
  {
    DistinctIds();
    var startNode, endNode, startLink, connection, endLink := ExtendNetwork(network);
    var fromFacility, toFacility := CreateStopFacilities(schedule, network, startNode, endNode, startLink, endLink);
    ShuttleRouteAligned(old(network.nodes), old(network.links), network.nodes, network.links, schedule.facilities);
    route := BuildRoute(schedule, fromFacility, toFacility, startLink, connection, endLink);
  }

  /** The fleet half of the generator: the shuttle vehicle type, then one departure and
      one vehicle of that type for every tick of the service window. */
  method CreateShuttleFleet(route: TransitRoute) returns (fleet: Fleet)
    requires route.departures == []
    modifies route
    ensures fresh(fleet)
    ensures fleet.Valid()
    ensures fleet.vehicleTypes == map[ShuttleTypeId := VehicleType(ShuttleTypeId, 20, 2, 36, Pt, "shuttle vehicle type", 10000, 0)]
    ensures fleet.vehicles == VehiclesAt(Ticks(ServiceStart, ServiceEnd, Headway), ShuttleTypeId)
    ensures route.departures == DeparturesAt(Ticks(ServiceStart, ServiceEnd, Headway))
    ensures ServedOneToOne(route.departures, fleet.vehicles, ShuttleTypeId)
  {
    fleet := new Fleet();
    var vehicleType := RegisterShuttleType(fleet);
    ScheduleShuttleDepartures(route, fleet, vehicleType.id);
  }

  /** The whole generation run on a loaded network: extends the network in place and returns
      the new schedule and fleet (with the route and line for reference). The steps touch
      disjoint objects and the line holds the route by reference, so building the network and
      route first, then the line, then the fleet and departures, ends in the same state as
      the program's order (vehicle type, network, facilities, route, departures, line). */
  method CreateZooShuttle(network: Network)
    returns (schedule: TransitSchedule, fleet: Fleet, route: TransitRoute, line: TransitLine)
    requires network.Valid()
    requires Extendable(network.nodes, network.links)
    modifies network
    ensures fresh(schedule) && fresh(fleet) && fresh(route) && fresh(line)
    // network: the original plus the shuttle path
    ensures network.Valid()
    ensures ShuttleExtension(old(network.nodes), old(network.links), network.nodes, network.links)
    // fleet: the one shuttle type, one vehicle per tick
    ensures fleet.Valid()
    ensures fleet.vehicleTypes == map[ShuttleTypeId := VehicleType(ShuttleTypeId, 20, 2, 36, Pt, "shuttle vehicle type", 10000, 0)]
    ensures fleet.vehicles == VehiclesAt(Ticks(ServiceStart, ServiceEnd, Headway), ShuttleTypeId)
    // schedule: two facilities, one line holding the one route
    ensures schedule.Valid()
    ensures ShuttleFacilities(schedule.facilities, network.nodes)
    ensures schedule.lines == map[ShuttleLineId := line] && line.routes == map[ShuttleRouteId := route]
    ensures route.id == ShuttleRouteId && route.mode == Pt
    ensures route.route == NetworkRoute(StartLinkId, [ConnectionId], EndLinkId)
    ensures route.stops == [RouteStop(schedule.facilities[FromStopId], 0, 10), RouteStop(schedule.facilities[ToStopId], 3600, 3610)]
    ensures RouteAligned(network.links, route.route, route.stops)
    // departures: one per tick, each with its own vehicle
    ensures route.departures == DeparturesAt(Ticks(ServiceStart, ServiceEnd, Headway))
    ensures ServedOneToOne(route.departures, fleet.vehicles, ShuttleTypeId)
  {
    schedule := new TransitSchedule();
    route := BuildShuttleRoute(network, schedule);
    line := AssembleLine(schedule, route);
    fleet := CreateShuttleFleet(route);
  }
}
