/** The fuel-log endpoints: every operation first checks that the user owns
    the vehicle, then reaches only logs of that vehicle. */
module FuelLogService {
  import opened Common
  import opened Sequences
  import VehicleModel
  import opened FuelLogModel
  import opened Store

  const FuelLogNotFound := HttpError(404, "Fuel log not found")

  /** The fields `createFuelLog` takes; `date` may be left out. */
  datatype FuelLogCreateData = FuelLogCreateData(date: Option<Time>, mileage: int, fuelAmount: int, totalCost: int, notes: Option<string>)

  /** The fields `updateFuelLog` takes; None is a field left out of the request. */
  datatype FuelLogUpdateData = FuelLogUpdateData(
    date: Option<Time>, mileage: Option<int>, fuelAmount: Option<int>, totalCost: Option<int>, notes: Option<string>)

  const EmptyPatch := FuelLogUpdateData(None, None, None, None, None)

  /** `getAllFuelLogs`: 404 unless the user owns the vehicle; otherwise all
      of the vehicle's logs, latest first. */
  function GetAllFuelLogs(vehicles: seq<VehicleModel.Vehicle>, logs: seq<FuelLog>, userId: Id, vehicleId: Id): (r: Result<seq<FuelLog>>)
    ensures r.Err? <==> !VehicleModel.OwnsVehicle(vehicles, userId, vehicleId)
    ensures r.Err? ==> r.error == VehicleModel.VehicleNotFoundOrDenied
    ensures r.Ok? ==> SortedBy(r.value, LatestFirst)
    ensures r.Ok? ==> forall l :: multiset(r.value)[l] == if l.vehicleId == vehicleId then multiset(logs)[l] else 0
  {
    match VehicleModel.VerifyVehicleOwnership(vehicles, userId, vehicleId)
    case Some(e) => Err(e)
    case None => Ok(FindByVehicle(logs, vehicleId, None, None))
  }

  /** `getFuelLogById`: the ownership check first, then 404 unless the log
      belongs to that vehicle. */
  function GetFuelLogById(vehicles: seq<VehicleModel.Vehicle>, logs: seq<FuelLog>, userId: Id, vehicleId: Id, fuelLogId: Id): (r: Result<FuelLog>)
    ensures !VehicleModel.OwnsVehicle(vehicles, userId, vehicleId) ==> r == Err(VehicleModel.VehicleNotFoundOrDenied)
    ensures VehicleModel.OwnsVehicle(vehicles, userId, vehicleId) ==>
      (r.Ok? <==> exists l :: l in logs && l.id == fuelLogId && l.vehicleId == vehicleId)
    ensures VehicleModel.OwnsVehicle(vehicles, userId, vehicleId) && r.Err? ==> r.error == FuelLogNotFound
    ensures r.Ok? ==> r.value in logs && r.value.id == fuelLogId && r.value.vehicleId == vehicleId
  {
    match VehicleModel.VerifyVehicleOwnership(vehicles, userId, vehicleId)
    case Some(e) => Err(e)
    case None =>
      match FindByVehicleAndId(logs, vehicleId, fuelLogId)
      case None => Err(FuelLogNotFound)
      case Some(l) => Ok(l)
  }

  /** The document `FuelLog.create` builds: the date defaults to now. */
  function NewFuelLog(id: Id, vehicleId: Id, data: FuelLogCreateData, now: Time): (l: FuelLog)
    ensures l.id == id && l.vehicleId == vehicleId && l.createdAt == now
    ensures data.date.Some? ==> l.date == data.date.value
    ensures data.date.None? ==> l.date == now
    ensures l.mileage == data.mileage && l.fuelAmount == data.fuelAmount && l.totalCost == data.totalCost && l.notes == data.notes
  {
    FuelLog(id, vehicleId, if data.date.Some? then data.date.value else now,
            data.mileage, data.fuelAmount, data.totalCost, data.notes, now)
  }

  /** The `set()` calls of `updateFuelLog`: each field given replaces the
      stored one; the id, the vehicle and the creation time are never touched. */
  function ApplyPatch(l: FuelLog, patch: FuelLogUpdateData): (r: FuelLog)
    ensures r.id == l.id && r.vehicleId == l.vehicleId && r.createdAt == l.createdAt
    ensures patch.date.None? ==> r.date == l.date
    ensures patch.date.Some? ==> r.date == patch.date.value
    ensures patch.mileage.None? ==> r.mileage == l.mileage
    ensures patch.mileage.Some? ==> r.mileage == patch.mileage.value
    ensures patch.fuelAmount.None? ==> r.fuelAmount == l.fuelAmount
    ensures patch.fuelAmount.Some? ==> r.fuelAmount == patch.fuelAmount.value
    ensures patch.totalCost.None? ==> r.totalCost == l.totalCost
    ensures patch.totalCost.Some? ==> r.totalCost == patch.totalCost.value
    ensures patch.notes.None? ==> r.notes == l.notes
    ensures patch.notes.Some? ==> r.notes == patch.notes
  {
    l.(
      date := if patch.date.Some? then patch.date.value else l.date,
      mileage := if patch.mileage.Some? then patch.mileage.value else l.mileage,
      fuelAmount := if patch.fuelAmount.Some? then patch.fuelAmount.value else l.fuelAmount,
      totalCost := if patch.totalCost.Some? then patch.totalCost.value else l.totalCost,
      notes := if patch.notes.Some? then patch.notes else l.notes)
  }

  /** An empty patch changes nothing, and a patch applied twice is applied once. */
  lemma PatchLaws(l: FuelLog, patch: FuelLogUpdateData)
    ensures ApplyPatch(l, EmptyPatch) == l
    ensures ApplyPatch(ApplyPatch(l, patch), patch) == ApplyPatch(l, patch)
  {
  }

  /** `createFuelLog`: 404 unless the user owns the vehicle; otherwise a new
      log of that vehicle, unless the schema rejects it. */
  method CreateFuelLog(db: Database, userId: Id, vehicleId: Id, data: FuelLogCreateData, now: Time) returns (r: Result<FuelLog>)
    requires db.Valid()
    modifies db`fuelLogs, db`nextId
    ensures db.Valid()
    ensures !VehicleModel.OwnsVehicle(db.vehicles, userId, vehicleId) ==> r == Err(VehicleModel.VehicleNotFoundOrDenied)
    ensures VehicleModel.OwnsVehicle(db.vehicles, userId, vehicleId) ==>
      (r.Ok? <==> SatisfiesSchema(NewFuelLog(old(db.nextId), vehicleId, data, now)))
    ensures VehicleModel.OwnsVehicle(db.vehicles, userId, vehicleId) && !SatisfiesSchema(NewFuelLog(old(db.nextId), vehicleId, data, now)) ==>
      r == Err(ValidationFailed)
    ensures r.Ok? ==> r.value == NewFuelLog(old(db.nextId), vehicleId, data, now) && db.fuelLogs == old(db.fuelLogs) + [r.value]
    ensures r.Err? ==> db.fuelLogs == old(db.fuelLogs) && db.nextId == old(db.nextId)
  {
    var denied := VehicleModel.VerifyVehicleOwnership(db.vehicles, userId, vehicleId);
    if denied.Some? {
      return Err(denied.value);
    }
    var log := NewFuelLog(db.nextId, vehicleId, data, now);
    if !SatisfiesSchema(log) {
      return Err(ValidationFailed);
    }
    var id := db.NewId();
    db.fuelLogs := db.fuelLogs + [log];
    assert FuelLogsValid(db.fuelLogs, db.nextId);
    r := Ok(log);
  }

  /** `updateFuelLog`: the ownership check, then 404 unless the log belongs
      to the vehicle; otherwise the given fields are replaced and saved,
      unless the schema rejects the result. Nothing changes on an error. */
  method UpdateFuelLog(db: Database, userId: Id, vehicleId: Id, fuelLogId: Id, patch: FuelLogUpdateData) returns (r: Result<FuelLog>)
    requires db.Valid()
    modifies db`fuelLogs
    ensures db.Valid()
    ensures r.Err? ==> db.fuelLogs == old(db.fuelLogs)
    ensures !VehicleModel.OwnsVehicle(db.vehicles, userId, vehicleId) ==> r == Err(VehicleModel.VehicleNotFoundOrDenied)
    ensures VehicleModel.OwnsVehicle(db.vehicles, userId, vehicleId) && IndexOf(old(db.fuelLogs), vehicleId, fuelLogId).None? ==>
      r == Err(FuelLogNotFound)
    ensures VehicleModel.OwnsVehicle(db.vehicles, userId, vehicleId) && IndexOf(old(db.fuelLogs), vehicleId, fuelLogId).Some? ==>
      var i := IndexOf(old(db.fuelLogs), vehicleId, fuelLogId).value;
      var updated := ApplyPatch(old(db.fuelLogs)[i], patch);
      && (SatisfiesSchema(updated) ==> r == Ok(updated) && db.fuelLogs == old(db.fuelLogs)[i := updated])
      && (!SatisfiesSchema(updated) ==> r == Err(ValidationFailed))
  {
    var denied := VehicleModel.VerifyVehicleOwnership(db.vehicles, userId, vehicleId);
    if denied.Some? {
      return Err(denied.value);
    }
    var found := IndexOf(db.fuelLogs, vehicleId, fuelLogId);
    if found.None? {
      return Err(FuelLogNotFound);
    }
    var i := found.value;
    var log := ApplyPatch(db.fuelLogs[i], patch);
    if !SatisfiesSchema(log) {
      return Err(ValidationFailed);
    }
    SetKeepsFuelLogsValid(db.fuelLogs, db.nextId, i, log);
    db.fuelLogs := db.fuelLogs[i := log];
    assert FuelLogsValid(db.fuelLogs, db.nextId);
    r := Ok(log);
  }

  /** `deleteFuelLog`: the ownership check, then 404 unless the log belongs
      to the vehicle; otherwise exactly that log is removed. */
  method DeleteFuelLog(db: Database, userId: Id, vehicleId: Id, fuelLogId: Id) returns (r: Result<()>)
    requires db.Valid()
    modifies db`fuelLogs
    ensures db.Valid()
    ensures r.Err? ==> db.fuelLogs == old(db.fuelLogs)
    ensures !VehicleModel.OwnsVehicle(db.vehicles, userId, vehicleId) ==> r == Err(VehicleModel.VehicleNotFoundOrDenied)
    ensures VehicleModel.OwnsVehicle(db.vehicles, userId, vehicleId) && IndexOf(old(db.fuelLogs), vehicleId, fuelLogId).None? ==>
      r == Err(FuelLogNotFound)
    ensures r.Ok? <==> VehicleModel.OwnsVehicle(db.vehicles, userId, vehicleId) && IndexOf(old(db.fuelLogs), vehicleId, fuelLogId).Some?
    ensures r.Ok? ==>
      var i := IndexOf(old(db.fuelLogs), vehicleId, fuelLogId).value;
      && VehicleModel.OwnsVehicle(db.vehicles, userId, vehicleId)
      && db.fuelLogs == RemoveAt(old(db.fuelLogs), i)
      && multiset(db.fuelLogs) == multiset(old(db.fuelLogs)) - multiset{old(db.fuelLogs)[i]}
      && forall l :: l in db.fuelLogs ==> l.id != fuelLogId
  {
    var denied := VehicleModel.VerifyVehicleOwnership(db.vehicles, userId, vehicleId);
    if denied.Some? {
      return Err(denied.value);
    }
    var found := IndexOf(db.fuelLogs, vehicleId, fuelLogId);
    if found.None? {
      return Err(FuelLogNotFound);
    }
    var i := found.value;
    RemoveKeepsFuelLogsValid(db.fuelLogs, db.nextId, i);
    db.fuelLogs := RemoveAt(db.fuelLogs, i);
    assert FuelLogsValid(db.fuelLogs, db.nextId);
    r := Ok(());
  }
}
