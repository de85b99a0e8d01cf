/** The vehicle endpoints: a user's vehicles are reachable only through
    that user; another user's vehicle answers 404 exactly like a missing one. */
module VehicleService {
  import opened Common
  import opened Sequences
  import opened VehicleModel
  import opened Store

  const VehicleNotFound := HttpError(404, "Vehicle not found")

  /** The fields `createVehicle` takes. */
  datatype VehicleCreateData = VehicleCreateData(name: string, make: string, vehicleModel: string, year: int, mileage: Option<int>)

  /** The fields `updateVehicle` takes; None is a field left out of the request. */
  datatype VehicleUpdateData = VehicleUpdateData(
    name: Option<string>, make: Option<string>, vehicleModel: Option<string>, year: Option<int>, mileage: Option<int>)

  const EmptyPatch := VehicleUpdateData(None, None, None, None, None)

  /** `getVehicleById`: the user's vehicle with that id, or 404. */
  function GetVehicleById(vehicles: seq<Vehicle>, userId: Id, vehicleId: Id): (r: Result<Vehicle>)
    ensures r.Ok? <==> exists v :: v in vehicles && v.id == vehicleId && v.userId == userId
    ensures r.Ok? ==> r.value in vehicles && r.value.id == vehicleId && r.value.userId == userId
    ensures r.Err? ==> r.error == VehicleNotFound
  {
    match FindByUserAndId(vehicles, userId, vehicleId)
    case None => Err(VehicleNotFound)
    case Some(v) => Ok(v)
  }

  /** The document `Vehicle.create` builds: the caller is the owner. */
  function NewVehicle(id: Id, userId: Id, data: VehicleCreateData, now: Time): (v: Vehicle)
    ensures v.id == id && v.userId == userId && v.createdAt == now
    ensures v.name == data.name && v.make == data.make && v.vehicleModel == data.vehicleModel
    ensures v.year == data.year && v.mileage == data.mileage
  {
    Vehicle(id, userId, data.name, data.make, data.vehicleModel, data.year, data.mileage, now)
  }

  /** The `set()` calls of `updateVehicle`: each field given replaces the
      stored one; the id, the owner and the creation time are never touched. */
  function ApplyPatch(v: Vehicle, patch: VehicleUpdateData): (r: Vehicle)
    ensures r.id == v.id && r.userId == v.userId && r.createdAt == v.createdAt
    ensures patch.name.None? ==> r.name == v.name
    ensures patch.name.Some? ==> r.name == patch.name.value
    ensures patch.make.None? ==> r.make == v.make
    ensures patch.make.Some? ==> r.make == patch.make.value
    ensures patch.vehicleModel.None? ==> r.vehicleModel == v.vehicleModel
    ensures patch.vehicleModel.Some? ==> r.vehicleModel == patch.vehicleModel.value
    ensures patch.year.None? ==> r.year == v.year
    ensures patch.year.Some? ==> r.year == patch.year.value
    ensures patch.mileage.None? ==> r.mileage == v.mileage
    ensures patch.mileage.Some? ==> r.mileage == patch.mileage
  {
    v.(
      name := if patch.name.Some? then patch.name.value else v.name,
      make := if patch.make.Some? then patch.make.value else v.make,
      vehicleModel := if patch.vehicleModel.Some? then patch.vehicleModel.value else v.vehicleModel,
      year := if patch.year.Some? then patch.year.value else v.year,
      mileage := if patch.mileage.Some? then patch.mileage else v.mileage)
  }

  /** An empty patch changes nothing, and a patch applied twice is applied once. */
  lemma PatchLaws(v: Vehicle, patch: VehicleUpdateData)
    ensures ApplyPatch(v, EmptyPatch) == v
    ensures ApplyPatch(ApplyPatch(v, patch), patch) == ApplyPatch(v, patch)
  {
  }

  /** `createVehicle`: stores a new vehicle owned by the caller, unless the
      schema rejects it. */
  method CreateVehicle(db: Database, userId: Id, data: VehicleCreateData, now: Time) returns (r: Result<Vehicle>)
    requires db.Valid()
    modifies db`vehicles, db`nextId
    ensures db.Valid()
    ensures r.Ok? <==> SatisfiesSchema(NewVehicle(old(db.nextId), userId, data, now), db.maxYear)
    ensures r.Ok? ==> r.value == NewVehicle(old(db.nextId), userId, data, now) && db.vehicles == old(db.vehicles) + [r.value]
    ensures r.Err? ==> r.error == ValidationFailed && db.vehicles == old(db.vehicles) && db.nextId == old(db.nextId)
  {
    var vehicle := NewVehicle(db.nextId, userId, data, now);
    if !SatisfiesSchema(vehicle, db.maxYear) {
      return Err(ValidationFailed);
    }
    var id := db.NewId();
    db.vehicles := db.vehicles + [vehicle];
    assert VehiclesValid(db.vehicles, db.nextId, db.maxYear);
    r := Ok(vehicle);
  }

  /** `updateVehicle`: 404 unless the user owns the vehicle; otherwise the
      given fields are replaced and the result saved, unless the schema
      rejects it. Nothing changes on an error. */
  method UpdateVehicle(db: Database, userId: Id, vehicleId: Id, patch: VehicleUpdateData) returns (r: Result<Vehicle>)
    requires db.Valid()
    modifies db`vehicles
    ensures db.Valid()
    ensures r.Err? ==> db.vehicles == old(db.vehicles)
    ensures IndexOfOwned(old(db.vehicles), userId, vehicleId).None? ==> r == Err(VehicleNotFound)
    ensures IndexOfOwned(old(db.vehicles), userId, vehicleId).Some? ==>
      var i := IndexOfOwned(old(db.vehicles), userId, vehicleId).value;
      var updated := ApplyPatch(old(db.vehicles)[i], patch);
      && (SatisfiesSchema(updated, db.maxYear) ==> r == Ok(updated) && db.vehicles == old(db.vehicles)[i := updated])
      && (!SatisfiesSchema(updated, db.maxYear) ==> r == Err(ValidationFailed))
  {
    var found := IndexOfOwned(db.vehicles, userId, vehicleId);
    if found.None? {
      return Err(VehicleNotFound);
    }
    var i := found.value;
    var vehicle := ApplyPatch(db.vehicles[i], patch);
    if !SatisfiesSchema(vehicle, db.maxYear) {
      return Err(ValidationFailed);
    }
    SetKeepsVehiclesValid(db.vehicles, db.nextId, db.maxYear, i, vehicle);
    db.vehicles := db.vehicles[i := vehicle];
    assert VehiclesValid(db.vehicles, db.nextId, db.maxYear);
    r := Ok(vehicle);
  }

  /** `deleteVehicle`: 404 unless the user owns the vehicle; otherwise that
      one vehicle is removed. Its fuel logs, service logs and reminders stay. */
  method DeleteVehicle(db: Database, userId: Id, vehicleId: Id) returns (r: Result<()>)
    requires db.Valid()
    modifies db`vehicles
    ensures db.Valid()
    ensures r.Ok? <==> OwnsVehicle(old(db.vehicles), userId, vehicleId)
    ensures r.Err? ==> r.error == VehicleNotFound && db.vehicles == old(db.vehicles)
    ensures r.Ok? ==>
      var i := IndexOfOwned(old(db.vehicles), userId, vehicleId).value;
      && db.vehicles == RemoveAt(old(db.vehicles), i)
      && multiset(db.vehicles) == multiset(old(db.vehicles)) - multiset{old(db.vehicles)[i]}
      && forall v :: v in db.vehicles ==> v.id != vehicleId
    ensures db.fuelLogs == old(db.fuelLogs) && db.serviceLogs == old(db.serviceLogs) && db.reminders == old(db.reminders)
    ensures db.users == old(db.users)
  {
    var found := IndexOfOwned(db.vehicles, userId, vehicleId);
    if found.None? {
      return Err(VehicleNotFound);
    }
    var i := found.value;
    RemoveKeepsVehiclesValid(db.vehicles, db.nextId, db.maxYear, i);
    db.vehicles := RemoveAt(db.vehicles, i);
    assert VehiclesValid(db.vehicles, db.nextId, db.maxYear);
    r := Ok(());
  }
}
