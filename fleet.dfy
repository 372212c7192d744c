/** The transit vehicle fleet: vehicle types and vehicles indexed by id, grown in place. */
module Fleet {
  import opened Entities

  class Fleet {
    var vehicleTypes: map<VehicleTypeId, VehicleType>
    var vehicles: map<VehicleId, Vehicle>

    /** Every record is filed under its own id and every vehicle has a registered type. */
    ghost predicate Valid()
      reads this
    {
      && (forall t :: t in vehicleTypes ==> vehicleTypes[t].id == t)
      && (forall v :: v in vehicles ==> vehicles[v].id == v && vehicles[v].typeId in vehicleTypes)
    }

    constructor ()
      ensures Valid() && vehicleTypes == map[] && vehicles == map[]
    {
      vehicleTypes := map[];
      vehicles := map[];
    }

    method AddVehicleType(vehicleType: VehicleType)
      requires Valid()
      requires vehicleType.id !in vehicleTypes
      modifies this
      ensures Valid()
      ensures vehicleTypes == old(vehicleTypes)[vehicleType.id := vehicleType]
      ensures vehicles == old(vehicles)
    {
      vehicleTypes := vehicleTypes[vehicleType.id := vehicleType];
    }

    /** Adds a vehicle under a fresh id; its type must already be registered. */
    method AddVehicle(vehicle: Vehicle)
      requires Valid()
      requires vehicle.id !in vehicles
      requires vehicle.typeId in vehicleTypes
      modifies this
      ensures Valid()
      ensures vehicles == old(vehicles)[vehicle.id := vehicle]
      ensures vehicleTypes == old(vehicleTypes)
    {
      vehicles := vehicles[vehicle.id := vehicle];
    }
  }
}
