# Zoo shuttle generator

A model of the shuttle generator of the Serengeti-Park Hodenhagen MATSim scenario. The
generator takes the park's loaded road network and grafts a transit-only path onto it: two new
nodes `pt_start` and `pt_end`, and three links `pt_1`, `pt_2` and `pt_3`. These run from
`pt_start` through the existing anchor nodes `29589035` and `3667621813` to `pt_end`. On that
path it places the two stop facilities `Stop_1` and `Stop_2` and builds the route `route-1`,
which stops at them at offsets (0, 10) and (3600, 3610). It gives the route one departure every
300 s from 09:00 up to 13:00, each served by a vehicle of its own of type `shuttle`. Finally it
files the route under the line `Shuttle`.

Modules:

- `Entities`: the records as datatypes. Identifiers are tagged values: the per-departure ids
  `departure_<t>` and `shuttle_vehicle_<t>` are `DepartureId(t)` and `VehicleId(t)`.
- `Network`, `Schedule` and `Fleet`: the containers the program grows in place, as classes
  whose map or sequence fields are reassigned by `Add…` methods.
- `Timetable`: the ticks `t = start, start + step, …, t < end` visited by the counting loop,
  and what they are.
- `Departures`: the departure loop as a method. It is proved against the functions
  `DeparturesAt` and `VehiclesAt`, which give the departures and vehicles built from a
  sequence of ticks.
- `ZooShuttle`: the constants of the program and one method per generation step. It also holds
  the predicates describing the finished network and schedule, and the lemmas about them.

`ZooShuttle.CreateZooShuttle` runs the whole generation on a network that contains both
anchors and none of the new ids. It states the complete resulting state:

- the network is the original, unchanged, plus exactly the shuttle nodes and links;
- the fleet holds the one vehicle type `shuttle`, with all its attributes, and one vehicle per tick;
- the schedule holds the two facilities and the one line holding the one route `route-1`;
- the route's departures are those of the ticks, each served one-to-one by its vehicle.

## Model

| member | source | states |
|---|---|---|
| Timetable.TicksAt | src/main/java/org/matsim/prepare/CreateZooShuttle.java:79 | the k-th value the loop visits is start + k * step |
| Timetable.TicksInWindow | src/main/java/org/matsim/prepare/CreateZooShuttle.java:79 | every visited value lies in the half-open window [start, end) |
| Timetable.TicksStrictlyAscending | src/main/java/org/matsim/prepare/CreateZooShuttle.java:79 | the loop visits its values in strictly ascending order |
| Timetable.TicksCount | src/main/java/org/matsim/prepare/CreateZooShuttle.java:79 | the loop runs not at all exactly when start >= end, and otherwise n times, n the least count with start + n * step >= end (the ceiling of (end - start) / step) |
| Timetable.TicksMembership | src/main/java/org/matsim/prepare/CreateZooShuttle.java:79 | a time is visited if and only if it lies in [start, end) and is a whole number of steps after start |
| Timetable.ShuttleTicks | src/main/java/org/matsim/prepare/CreateZooShuttle.java:79 | with 09:00, 13:00 and 300 s the loop runs 48 times, first at 32400, last at 46500, and never at 46800 |
| Entities.NetworkRoute.Path | src/main/java/org/matsim/prepare/CreateZooShuttle.java:75 | a network route's path is its start link, then its interior links, then its end link |
| Network.Network.AddNode | src/main/java/org/matsim/prepare/CreateZooShuttle.java:48 | adding a node under a fresh id files it under its id, keeps the network valid and leaves the links alone |
| Network.Network.AddLink | src/main/java/org/matsim/prepare/CreateZooShuttle.java:56-58 | adding a link with a fresh id between two nodes of the network files it under its id and leaves the nodes alone |
| Network.Network.GetNode | src/main/java/org/matsim/prepare/CreateZooShuttle.java:49-50 | the lookup finds a node if and only if the id is in the network, and then it is the node filed under that id |
| Schedule.TransitSchedule.constructor | src/main/java/org/matsim/prepare/CreateZooShuttle.java:32 | the fresh scenario's transit schedule has no stop facilities and no lines, and is valid |
| Fleet.Fleet.constructor | src/main/java/org/matsim/prepare/CreateZooShuttle.java:32 | the fresh scenario's transit fleet has no vehicle types and no vehicles, and is valid |
| Schedule.TransitRoute.constructor | src/main/java/org/matsim/prepare/CreateZooShuttle.java:76 | a new route has the given id, path, stops and mode and no departures |
| Schedule.TransitRoute.AddDeparture | src/main/java/org/matsim/prepare/CreateZooShuttle.java:85 | a departure with a fresh id is appended after the existing ones |
| Schedule.TransitLine.constructor | src/main/java/org/matsim/prepare/CreateZooShuttle.java:89 | a new line has the given id and no routes |
| Schedule.TransitLine.AddRoute | src/main/java/org/matsim/prepare/CreateZooShuttle.java:90 | a route with a fresh id is filed under its id |
| Schedule.TransitSchedule.AddStopFacility | src/main/java/org/matsim/prepare/CreateZooShuttle.java:67-68 | a facility with a fresh id is filed under its id; the lines are unchanged |
| Schedule.TransitSchedule.AddTransitLine | src/main/java/org/matsim/prepare/CreateZooShuttle.java:91 | a line with a fresh id is filed under its id; the facilities are unchanged |
| Fleet.Fleet.AddVehicleType | src/main/java/org/matsim/prepare/CreateZooShuttle.java:43 | a vehicle type with a fresh id is filed under its id; the vehicles are unchanged |
| Fleet.Fleet.AddVehicle | src/main/java/org/matsim/prepare/CreateZooShuttle.java:84 | a vehicle with a fresh id and a registered type is filed under its id; the fleet stays valid (every vehicle has a registered type) |
| Departures.DeparturesAtElements | src/main/java/org/matsim/prepare/CreateZooShuttle.java:80-82 | there is one departure per tick, in tick order; the one for tick t has id t, time t and vehicle t |
| Departures.VehiclesAtEntries | src/main/java/org/matsim/prepare/CreateZooShuttle.java:81 | the vehicles built for the ticks are exactly the vehicles of those ticks, each of the given type |
| Departures.DeparturesFollowTicks | src/main/java/org/matsim/prepare/CreateZooShuttle.java:79-80 | the k-th departure leaves at start + k * step < end, and departure times strictly ascend |
| Departures.DeparturesServedOneToOne | src/main/java/org/matsim/prepare/CreateZooShuttle.java:80-85 | departure ids and vehicle ids are pairwise distinct, every departure's vehicle is in the fleet with the given type, and every vehicle serves a departure |
| Departures.TripIsFresh | src/main/java/org/matsim/prepare/CreateZooShuttle.java:79-85 | at tick i the loop has not yet used departure id i or vehicle id i, because it has only visited earlier ticks and nothing in the window was taken before |
| Departures.AdvanceTick | src/main/java/org/matsim/prepare/CreateZooShuttle.java:79-86 | one loop iteration moves tick i from the ticks to come to the ticks done, appends its departure and adds its vehicle |
| Departures.AddTrip | src/main/java/org/matsim/prepare/CreateZooShuttle.java:80-85 | one iteration registers vehicle t of the given type in the fleet and appends departure t, bound to vehicle t, to the route |
| Departures.AddDepartures | src/main/java/org/matsim/prepare/CreateZooShuttle.java:79-86 | the loop appends exactly the departures of the ticks of [start, end) to the route and adds exactly their vehicles to the fleet, keeping the vehicle types and fleet validity |
| ZooShuttle.DistinctIds | src/main/java/org/matsim/prepare/CreateZooShuttle.java:47-65 | the literal node, link and stop ids the program uses are pairwise distinct |
| ZooShuttle.ExtensionSizes | src/main/java/org/matsim/prepare/CreateZooShuttle.java:47-58 | the extended network has exactly two more nodes and three more links than the original |
| ZooShuttle.ShuttlePathResolves | src/main/java/org/matsim/prepare/CreateZooShuttle.java:53-55 | pt_1, pt_2, pt_3 are contiguous, from pt_start to pt_end, and each joins two distinct nodes of the network |
| ZooShuttle.UpdatesCommute | src/main/java/org/matsim/prepare/CreateZooShuttle.java:56-57 | adding two links with different ids gives the same network in either order |
| ZooShuttle.ExtensionByUpdates | src/main/java/org/matsim/prepare/CreateZooShuttle.java:47-58 | adding the two nodes and three links to an extendable network gives exactly the shuttle extension |
| ZooShuttle.ShuttleRouteAligned | src/main/java/org/matsim/prepare/CreateZooShuttle.java:61-76 | the route lies on a contiguous path, Stop_1 serves its first link, Stop_2 its last, the offsets are ordered, and both facility links are in the network |
| ZooShuttle.ShuttleDepartures | src/main/java/org/matsim/prepare/CreateZooShuttle.java:79-80 | the shuttle departs 48 times, the k-th at 32400 + 300 * k, the last at 46500 |
| ZooShuttle.RegisterShuttleType | src/main/java/org/matsim/prepare/CreateZooShuttle.java:35-43 | the vehicle type `shuttle` gets length 20, 2 PCU, 36 maximum velocity, mode pt, 10000 seats and no standing room, and is registered |
| ZooShuttle.CreateLink | src/main/java/org/matsim/prepare/CreateZooShuttle.java:99-106 | the link joins the two nodes, allows pt only, with freespeed 100 and capacity 10000 |
| ZooShuttle.ExtendNetwork | src/main/java/org/matsim/prepare/CreateZooShuttle.java:47-58 | the network becomes its shuttle extension: originals unchanged, plus the two nodes and three links |
| ZooShuttle.CreateStopFacilities | src/main/java/org/matsim/prepare/CreateZooShuttle.java:61-68 | Stop_1 at the start node's coordinate on the start link and Stop_2 at the end node's coordinate on the end link, both registered |
| ZooShuttle.BuildRoute | src/main/java/org/matsim/prepare/CreateZooShuttle.java:71-76 | the route `route-1` follows start link, connection, end link, stops at (0, 10) and (3600, 3610), has mode pt and no departures |
| ZooShuttle.AssembleLine | src/main/java/org/matsim/prepare/CreateZooShuttle.java:89-91 | the line `Shuttle` holds exactly the route and is registered in the schedule |
| ZooShuttle.ScheduleShuttleDepartures | src/main/java/org/matsim/prepare/CreateZooShuttle.java:79-86 | with the shuttle's window and headway, the route gets exactly the departures of the ticks, the fleet exactly their vehicles, bound one to one |
| ZooShuttle.BuildShuttleRoute | src/main/java/org/matsim/prepare/CreateZooShuttle.java:47-76 | the network becomes its shuttle extension, the two facilities are registered, and the route is aligned with the new path |
| ZooShuttle.CreateShuttleFleet | src/main/java/org/matsim/prepare/CreateZooShuttle.java:35-86 | the fleet holds exactly the shuttle type and one vehicle per tick; the route holds one departure per tick, served one to one |
| ZooShuttle.CreateZooShuttle | src/main/java/org/matsim/prepare/CreateZooShuttle.java:35-91 | the complete result of a run: network extension, the `shuttle` type record and one vehicle per tick, facilities, the route `route-1` with its path, stops and mode and aligned with the network, the line, and one-to-one departures |

## Left out

- Reading the baseline network and writing the network, schedule and vehicle files
  (`CreateZooShuttle.java:30-31`, `94-96`): file I/O. The network is a parameter of
  `ZooShuttle.CreateZooShuttle`, and the outputs are its resulting state.
- The static library factories and `Id` interning (`CreateZooShuttle.java:23-24`): these are
  library internals, replaced by datatype constructors and tagged ids.
- Coordinates are exact reals. Double rounding of the sums at lines 47 and 51 is not
  modelled; the model only copies coordinates from nodes to facilities.
- Vehicle-type attributes are recorded as integers (the maximum velocity 36 included); they
  have no behaviour here.
- Link attributes the library fills in itself (length, lanes) are not modelled.
- The library's duplicate-id and dangling-reference failures are stated as preconditions of
  the `Add…` methods and `ZooShuttle.Extendable`, not as modelled error paths. This covers
  adding an existing node, link, facility, line, route, vehicle type, vehicle or departure,
  a link to an absent node, and a vehicle of an unregistered type. The program never
  triggers them on a network that satisfies `ZooShuttle.Extendable`.
- ZooShuttle.ExtendNetwork: requires both anchors to be present rather than modelling a
  missing one. The program does not check for them (an absent node is an unchecked null),
  so no error path exists in the code to model.
- Departures.AddDepartures: the step is required to be positive. The program's step is the
  literal 300, and a non-positive step would not terminate.
- ZooShuttle.CreateZooShuttle: it performs the independent steps in a different order from
  the program: network and route, then line, then vehicle type and departures. The steps
  change disjoint objects and the line holds the route by reference, so the final state is
  the same.
- Java `int` overflow of the loop counter is not modelled; the counter never exceeds 46800.
