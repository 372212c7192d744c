/** The departure/fleet generator: one departure and one dedicated vehicle per tick of a
    time window. */
module Departures {
  import opened Entities
  import opened Timetable
  import opened Schedule
  import opened Fleet

  /** The departures for `ticks`, in tick order: the one at tick t has id t and is served by
      vehicle t. */
  function DeparturesAt(ticks: seq<int>): (ds: seq<Departure>)
  {
    if ticks == [] then []
    else
      var t := ticks[|ticks| - 1];
      DeparturesAt(ticks[..|ticks| - 1]) + [Departure(DepartureId(t), t, VehicleId(t))]
  }

  /** The vehicles for `ticks`, indexed by id: vehicle t has type `typeId`. */
  function VehiclesAt(ticks: seq<int>, typeId: VehicleTypeId): (vs: map<VehicleId, Vehicle>)
  {
    if ticks == [] then map[]
    else
      var t := ticks[|ticks| - 1];
      VehiclesAt(ticks[..|ticks| - 1], typeId)[VehicleId(t) := Vehicle(VehicleId(t), typeId)]
  }

  /** Each departure has its own id and its own vehicle, each such vehicle is in `vehicles`
      with type `typeId`, and every vehicle serves some departure. */
  ghost predicate ServedOneToOne(departures: seq<Departure>, vehicles: map<VehicleId, Vehicle>, typeId: VehicleTypeId)
  {
    && DistinctDepartures(departures)
    && (forall k :: 0 <= k < |departures| ==>
          departures[k].vehicleId in vehicles && vehicles[departures[k].vehicleId].typeId == typeId)
    && (forall v :: v in vehicles ==> exists k :: 0 <= k < |departures| && departures[k].vehicleId == v)
  }

  /** The departure built for each tick: id and vehicle both taken from the tick. */
  lemma {:induction false} DeparturesAtElements(ticks: seq<int>)
    ensures |DeparturesAt(ticks)| == |ticks|
    ensures forall k :: 0 <= k < |ticks| ==>
              DeparturesAt(ticks)[k] == Departure(DepartureId(ticks[k]), ticks[k], VehicleId(ticks[k]))
  {
    if ticks != [] {
      DeparturesAtElements(ticks[..|ticks| - 1]);
    }
  }

  /** The fleet built for `ticks` holds exactly the vehicles of those ticks, each of type `typeId`. */
  lemma {:induction false} VehiclesAtEntries(ticks: seq<int>, typeId: VehicleTypeId)
    ensures forall v :: v in VehiclesAt(ticks, typeId) <==> v.tick in ticks
    ensures forall v :: v in VehiclesAt(ticks, typeId) ==> VehiclesAt(ticks, typeId)[v] == Vehicle(v, typeId)
  {
    if ticks != [] {
      VehiclesAtEntries(ticks[..|ticks| - 1], typeId);
      assert ticks == ticks[..|ticks| - 1] + [ticks[|ticks| - 1]];
    }
  }

  /** Advancing the loop from tick i to i + step moves i from the ticks still to come to the
      ticks done, and appends its departure and adds its vehicle to what was built so far. */
  lemma AdvanceTick(departures0: seq<Departure>, vehicles0: map<VehicleId, Vehicle>, done: seq<int>,
                    i: int, start: int, end: int, step: int, typeId: VehicleTypeId)
    requires step > 0 && i < end
    requires done + Ticks(i, end, step) == Ticks(start, end, step)
    ensures (done + [i]) + Ticks(i + step, end, step) == Ticks(start, end, step)
    ensures departures0 + DeparturesAt(done + [i])
            == departures0 + DeparturesAt(done) + [Departure(DepartureId(i), i, VehicleId(i))]
    ensures vehicles0 + VehiclesAt(done + [i], typeId)
            == (vehicles0 + VehiclesAt(done, typeId))[VehicleId(i) := Vehicle(VehicleId(i), typeId)]
  {
    assert Ticks(i, end, step) == [i] + Ticks(i + step, end, step);
    DeparturesAtAppend(departures0, done, i);
    VehiclesAtAppend(vehicles0, done, i, typeId);
  }

  lemma DeparturesAtAppend(prefix: seq<Departure>, ticks: seq<int>, t: int)
    ensures prefix + DeparturesAt(ticks + [t]) == prefix + DeparturesAt(ticks) + [Departure(DepartureId(t), t, VehicleId(t))]
  {
    assert (ticks + [t])[..|ticks|] == ticks;
  }

  lemma VehiclesAtAppend(m: map<VehicleId, Vehicle>, ticks: seq<int>, t: int, typeId: VehicleTypeId)
    ensures m + VehiclesAt(ticks + [t], typeId) == (m + VehiclesAt(ticks, typeId))[VehicleId(t) := Vehicle(VehicleId(t), typeId)]
  {
    assert (ticks + [t])[..|ticks|] == ticks;
  }

  /** While the loop is at tick i, neither the departure id nor the vehicle id of i is taken yet:
      none was taken before the loop, and the loop has only used earlier ticks. */
  lemma TripIsFresh(departures0: seq<Departure>, vehicles0: map<VehicleId, Vehicle>, done: seq<int>,
                    i: int, start: int, end: int, typeId: VehicleTypeId)
    requires forall k :: 0 <= k < |departures0| ==> !(start <= departures0[k].id.tick < end)
    requires forall v :: v in vehicles0 ==> !(start <= v.tick < end)
    requires forall t :: t in done ==> t < i
    requires start <= i < end
    ensures VehicleId(i) !in vehicles0 + VehiclesAt(done, typeId)
    ensures forall k :: 0 <= k < |departures0 + DeparturesAt(done)| ==>
              (departures0 + DeparturesAt(done))[k].id != DepartureId(i)
  {
    VehiclesAtEntries(done, typeId);
    DeparturesAtElements(done);
    forall k | 0 <= k < |departures0 + DeparturesAt(done)|
      ensures (departures0 + DeparturesAt(done))[k].id != DepartureId(i)
    {
      if k >= |departures0| {
        assert done[k - |departures0|] in done;
      }
    }
  }

  /** The departures of a window leave at start, start + step, ... (strictly ascending),
      all inside the window, as many as the ceiling of its length over the step. */
  lemma DeparturesFollowTicks(start: int, end: int, step: int)
    requires step > 0
    ensures |DeparturesAt(Ticks(start, end, step))| == |Ticks(start, end, step)|
    ensures forall k :: 0 <= k < |DeparturesAt(Ticks(start, end, step))| ==>
              DeparturesAt(Ticks(start, end, step))[k].time == start + k * step < end
    ensures forall j, k :: 0 <= j < k < |DeparturesAt(Ticks(start, end, step))| ==>
              DeparturesAt(Ticks(start, end, step))[j].time < DeparturesAt(Ticks(start, end, step))[k].time
  {
    var ts := Ticks(start, end, step);
    DeparturesAtElements(ts);
    TicksStrictlyAscending(start, end, step);
    TicksInWindow(start, end, step);
    forall k | 0 <= k < |ts| ensures ts[k] == start + k * step < end {
      TicksAt(start, end, step, k);
      assert ts[k] in ts;
    }
  }

  /** Departures and vehicles generated from the same ticks are bound one to one. */
  lemma DeparturesServedOneToOne(start: int, end: int, step: int, typeId: VehicleTypeId)
    requires step > 0
    ensures ServedOneToOne(DeparturesAt(Ticks(start, end, step)), VehiclesAt(Ticks(start, end, step), typeId), typeId)
  {
    var ts := Ticks(start, end, step);
    var ds, vs := DeparturesAt(ts), VehiclesAt(ts, typeId);
    DeparturesAtElements(ts);
    VehiclesAtEntries(ts, typeId);
    TicksStrictlyAscending(start, end, step);
    forall k | 0 <= k < |ds| ensures ds[k].vehicleId in vs && vs[ds[k].vehicleId].typeId == typeId {
      assert ts[k] in ts;
    }
    forall v | v in vs ensures exists k :: 0 <= k < |ds| && ds[k].vehicleId == v {
      var k :| 0 <= k < |ts| && ts[k] == v.tick;
      assert ds[k].vehicleId == v;
    }
  }

  /** The loop body for tick t: creates a departure at t and a vehicle of type `typeId` for it,
      binds the vehicle to the departure, registers the vehicle in the fleet and adds the
      departure to the route. */
  method AddTrip(route: TransitRoute, fleet: Fleet, typeId: VehicleTypeId, t: int)
    requires fleet.Valid() && typeId in fleet.vehicleTypes
    requires VehicleId(t) !in fleet.vehicles
    requires forall k :: 0 <= k < |route.departures| ==> route.departures[k].id != DepartureId(t)
    modifies route, fleet
    ensures fleet.Valid() && fleet.vehicleTypes == old(fleet.vehicleTypes)
    ensures fleet.vehicles == old(fleet.vehicles)[VehicleId(t) := Vehicle(VehicleId(t), typeId)]
    ensures route.departures == old(route.departures) + [Departure(DepartureId(t), t, VehicleId(t))]
  {
    var vehicle := Vehicle(VehicleId(t), typeId);
    var departure := Departure(DepartureId(t), t, vehicle.id);
    fleet.AddVehicle(vehicle);
    route.AddDeparture(departure);
  }

  /** The departure loop: for every tick t of [start, end) stepped by `step`, in ascending
      order, adds a departure at t served by a vehicle of its own. */
  method AddDepartures(route: TransitRoute, fleet: Fleet, typeId: VehicleTypeId, start: int, end: int, step: int)
    requires step > 0
    requires fleet.Valid() && typeId in fleet.vehicleTypes
    requires forall k :: 0 <= k < |route.departures| ==> !(start <= route.departures[k].id.tick < end)
    requires forall v :: v in fleet.vehicles ==> !(start <= v.tick < end)
    modifies route, fleet
    ensures fleet.Valid()
    ensures route.departures == old(route.departures) + DeparturesAt(Ticks(start, end, step))
    ensures fleet.vehicles == old(fleet.vehicles) + VehiclesAt(Ticks(start, end, step), typeId)
    ensures fleet.vehicleTypes == old(fleet.vehicleTypes)
  {
    var i := start;
    ghost var done: seq<int> := [];
    while i < end
      invariant start <= i
      invariant done + Ticks(i, end, step) == Ticks(start, end, step)
      invariant forall t :: t in done ==> t < i
      invariant fleet.Valid() && fleet.vehicleTypes == old(fleet.vehicleTypes)
      invariant route.departures == old(route.departures) + DeparturesAt(done)
      invariant fleet.vehicles == old(fleet.vehicles) + VehiclesAt(done, typeId)
      decreases end - i
    {
      TripIsFresh(old(route.departures), old(fleet.vehicles), done, i, start, end, typeId);
      AddTrip(route, fleet, typeId, i);
      AdvanceTick(old(route.departures), old(fleet.vehicles), done, i, start, end, step, typeId);
      done := done + [i];
      i := i + step;
    }
    assert Ticks(i, end, step) == [];
    assert done == Ticks(start, end, step);
  }
}
