/** The service-log endpoints: every operation first checks that the user
    owns the vehicle, then reaches only logs of that vehicle; the list is
    paged and comes with its metadata. */
module ServiceLogService {
  import opened Common
  import opened Sequences
  import opened Pagination
  import VehicleModel
  import opened ServiceLogModel
  import opened Store

  const ServiceLogNotFound := HttpError(404, "Service log not found")

  /** The fields `createServiceLog` takes; `date` may be left out. */
  datatype ServiceLogCreateData = ServiceLogCreateData(
    date: Option<Time>, mileage: int, serviceType: string, description: Option<string>,
    mechanic: Option<string>, totalCost: int, notes: Option<string>)

  /** The fields `updateServiceLog` takes; None is a field left out of the request. */
  datatype ServiceLogUpdateData = ServiceLogUpdateData(
    date: Option<Time>, mileage: Option<int>, serviceType: Option<string>, description: Option<string>,
    mechanic: Option<string>, totalCost: Option<int>, notes: Option<string>)

  const EmptyPatch := ServiceLogUpdateData(None, None, None, None, None, None, None)

  /** A page of logs with its metadata. */
  datatype ServiceLogList = ServiceLogList(data: seq<ServiceLog>, pagination: PaginationMeta)

  /** `getAllServiceLogs`: 404 unless the user owns the vehicle; otherwise
      one page of the vehicle's logs, latest first, and metadata built from
      the same page and limit and the vehicle's log count. The page is
      empty exactly when it lies past the last page. */
  function GetAllServiceLogs(vehicles: seq<VehicleModel.Vehicle>, logs: seq<ServiceLog>, userId: Id, vehicleId: Id, page: int, limit: int)
    : (r: Result<ServiceLogList>)
    requires page >= 1 && limit >= 1
    ensures r.Err? <==> !VehicleModel.OwnsVehicle(vehicles, userId, vehicleId)
    ensures r.Err? ==> r.error == VehicleModel.VehicleNotFoundOrDenied
    ensures r.Ok? ==> r.value.pagination == BuildPaginationMeta(page, limit, CountByVehicle(logs, vehicleId))
    ensures r.Ok? ==> SortedBy(r.value.data, LatestFirst)
    ensures r.Ok? ==>
      var sorted := SortedOfVehicle(logs, vehicleId);
      var skip := CalculateSkip(page, limit);
      && |r.value.data| == (if skip >= |sorted| then 0 else Min(limit, |sorted| - skip))
      && forall k :: 0 <= k < |r.value.data| ==> skip + k < |sorted| && r.value.data[k] == sorted[skip + k]
    ensures r.Ok? ==> forall k :: 0 <= k < |r.value.data| ==> r.value.data[k] in logs && r.value.data[k].vehicleId == vehicleId
    ensures r.Ok? ==> (|r.value.data| > 0 <==> page <= r.value.pagination.totalPages)
  {
    match VehicleModel.VerifyVehicleOwnership(vehicles, userId, vehicleId)
    case Some(e) => Err(e)
    case None =>
      var total := CountByVehicle(logs, vehicleId);
      CountMatchesFind(logs, vehicleId);
      PageMatchesMeta(SortedOfVehicle(logs, vehicleId), page, limit);
      Ok(ServiceLogList(FindByVehicle(logs, vehicleId, Some(page), Some(limit)), BuildPaginationMeta(page, limit, total)))
  }

  /** `getServiceLogById`: the ownership check first, then 404 unless the
      log belongs to that vehicle. */
  function GetServiceLogById(vehicles: seq<VehicleModel.Vehicle>, logs: seq<ServiceLog>, userId: Id, vehicleId: Id, serviceLogId: Id)
    : (r: Result<ServiceLog>)
    ensures !VehicleModel.OwnsVehicle(vehicles, userId, vehicleId) ==> r == Err(VehicleModel.VehicleNotFoundOrDenied)
    ensures VehicleModel.OwnsVehicle(vehicles, userId, vehicleId) ==>
      (r.Ok? <==> exists l :: l in logs && l.id == serviceLogId && l.vehicleId == vehicleId)
    ensures VehicleModel.OwnsVehicle(vehicles, userId, vehicleId) && r.Err? ==> r.error == ServiceLogNotFound
    ensures r.Ok? ==> r.value in logs && r.value.id == serviceLogId && r.value.vehicleId == vehicleId
  {
    match VehicleModel.VerifyVehicleOwnership(vehicles, userId, vehicleId)
    case Some(e) => Err(e)
    case None =>
      match FindByVehicleAndId(logs, vehicleId, serviceLogId)
      case None => Err(ServiceLogNotFound)
      case Some(l) => Ok(l)
  }

  /** The document `ServiceLog.create` builds: the date defaults to now. */
  function NewServiceLog(id: Id, vehicleId: Id, data: ServiceLogCreateData, now: Time): (l: ServiceLog)
    ensures l.id == id && l.vehicleId == vehicleId && l.createdAt == now
    ensures data.date.Some? ==> l.date == data.date.value
    ensures data.date.None? ==> l.date == now
    ensures l.mileage == data.mileage && l.serviceType == data.serviceType && l.description == data.description
    ensures l.mechanic == data.mechanic && l.totalCost == data.totalCost && l.notes == data.notes
  {
    ServiceLog(id, vehicleId, if data.date.Some? then data.date.value else now, data.mileage,
               data.serviceType, data.description, data.mechanic, data.totalCost, data.notes, now)
  }

  /** The `set()` calls of `updateServiceLog`: each field given replaces the
      stored one; the id, the vehicle and the creation time are never touched. */
  function ApplyPatch(l: ServiceLog, patch: ServiceLogUpdateData): (r: ServiceLog)
    ensures r.id == l.id && r.vehicleId == l.vehicleId && r.createdAt == l.createdAt
    ensures patch.date.None? ==> r.date == l.date
    ensures patch.date.Some? ==> r.date == patch.date.value
    ensures patch.mileage.None? ==> r.mileage == l.mileage
    ensures patch.mileage.Some? ==> r.mileage == patch.mileage.value
    ensures patch.serviceType.None? ==> r.serviceType == l.serviceType
    ensures patch.serviceType.Some? ==> r.serviceType == patch.serviceType.value
    ensures patch.description.None? ==> r.description == l.description
    ensures patch.description.Some? ==> r.description == patch.description
    ensures patch.mechanic.None? ==> r.mechanic == l.mechanic
    ensures patch.mechanic.Some? ==> r.mechanic == patch.mechanic
    ensures patch.totalCost.None? ==> r.totalCost == l.totalCost
    ensures patch.totalCost.Some? ==> r.totalCost == patch.totalCost.value
    ensures patch.notes.None? ==> r.notes == l.notes
    ensures patch.notes.Some? ==> r.notes == patch.notes
  {
    l.(
      date := if patch.date.Some? then patch.date.value else l.date,
      mileage := if patch.mileage.Some? then patch.mileage.value else l.mileage,
      serviceType := if patch.serviceType.Some? then patch.serviceType.value else l.serviceType,
      description := if patch.description.Some? then patch.description else l.description,
      mechanic := if patch.mechanic.Some? then patch.mechanic else l.mechanic,
      totalCost := if patch.totalCost.Some? then patch.totalCost.value else l.totalCost,
      notes := if patch.notes.Some? then patch.notes else l.notes)
  }

  /** An empty patch changes nothing, and a patch applied twice is applied once. */
  lemma PatchLaws(l: ServiceLog, patch: ServiceLogUpdateData)
    ensures ApplyPatch(l, EmptyPatch) == l
    ensures ApplyPatch(ApplyPatch(l, patch), patch) == ApplyPatch(l, patch)
  {
  }

  /** `createServiceLog`: 404 unless the user owns the vehicle; otherwise a
      new log of that vehicle, unless the schema rejects it. */
  method CreateServiceLog(db: Database, userId: Id, vehicleId: Id, data: ServiceLogCreateData, now: Time) returns (r: Result<ServiceLog>)
    requires db.Valid()
    modifies db`serviceLogs, db`nextId
    ensures db.Valid()
    ensures !VehicleModel.OwnsVehicle(db.vehicles, userId, vehicleId) ==> r == Err(VehicleModel.VehicleNotFoundOrDenied)
    ensures VehicleModel.OwnsVehicle(db.vehicles, userId, vehicleId) ==>
      (r.Ok? <==> SatisfiesSchema(NewServiceLog(old(db.nextId), vehicleId, data, now)))
    ensures VehicleModel.OwnsVehicle(db.vehicles, userId, vehicleId) && !SatisfiesSchema(NewServiceLog(old(db.nextId), vehicleId, data, now)) ==>
      r == Err(ValidationFailed)
    ensures r.Ok? ==> r.value == NewServiceLog(old(db.nextId), vehicleId, data, now) && db.serviceLogs == old(db.serviceLogs) + [r.value]
    ensures r.Err? ==> db.serviceLogs == old(db.serviceLogs) && db.nextId == old(db.nextId)
  {
    var denied := VehicleModel.VerifyVehicleOwnership(db.vehicles, userId, vehicleId);
    if denied.Some? {
      return Err(denied.value);
    }
    var log := NewServiceLog(db.nextId, vehicleId, data, now);
    if !SatisfiesSchema(log) {
      return Err(ValidationFailed);
    }
    var id := db.NewId();
    db.serviceLogs := db.serviceLogs + [log];
    assert ServiceLogsValid(db.serviceLogs, db.nextId);
    r := Ok(log);
  }

  /** `updateServiceLog`: the ownership check, then 404 unless the log
      belongs to the vehicle; otherwise the given fields are replaced and
      saved, unless the schema rejects the result. Nothing changes on an error. */
  method UpdateServiceLog(db: Database, userId: Id, vehicleId: Id, serviceLogId: Id, patch: ServiceLogUpdateData)
    returns (r: Result<ServiceLog>)
    requires db.Valid()
    modifies db`serviceLogs
    ensures db.Valid()
    ensures r.Err? ==> db.serviceLogs == old(db.serviceLogs)
    ensures !VehicleModel.OwnsVehicle(db.vehicles, userId, vehicleId) ==> r == Err(VehicleModel.VehicleNotFoundOrDenied)
    ensures VehicleModel.OwnsVehicle(db.vehicles, userId, vehicleId) && IndexOf(old(db.serviceLogs), vehicleId, serviceLogId).None? ==>
      r == Err(ServiceLogNotFound)
    ensures VehicleModel.OwnsVehicle(db.vehicles, userId, vehicleId) && IndexOf(old(db.serviceLogs), vehicleId, serviceLogId).Some? ==>
      var i := IndexOf(old(db.serviceLogs), vehicleId, serviceLogId).value;
      var updated := ApplyPatch(old(db.serviceLogs)[i], patch);
      && (SatisfiesSchema(updated) ==> r == Ok(updated) && db.serviceLogs == old(db.serviceLogs)[i := updated])
      && (!SatisfiesSchema(updated) ==> r == Err(ValidationFailed))
  {
    var denied := VehicleModel.VerifyVehicleOwnership(db.vehicles, userId, vehicleId);
    if denied.Some? {
      return Err(denied.value);
    }
    var found := IndexOf(db.serviceLogs, vehicleId, serviceLogId);
    if found.None? {
      return Err(ServiceLogNotFound);
    }
    var i := found.value;
    var log := ApplyPatch(db.serviceLogs[i], patch);
    if !SatisfiesSchema(log) {
      return Err(ValidationFailed);
    }
    SetKeepsServiceLogsValid(db.serviceLogs, db.nextId, i, log);
    db.serviceLogs := db.serviceLogs[i := log];
    assert ServiceLogsValid(db.serviceLogs, db.nextId);
    r := Ok(log);
  }

  /** `deleteServiceLog`: the ownership check, then 404 unless the log
      belongs to the vehicle; otherwise exactly that log is removed. */
  method DeleteServiceLog(db: Database, userId: Id, vehicleId: Id, serviceLogId: Id) returns (r: Result<()>)
    requires db.Valid()
    modifies db`serviceLogs
    ensures db.Valid()
    ensures r.Err? ==> db.serviceLogs == old(db.serviceLogs)
    ensures !VehicleModel.OwnsVehicle(db.vehicles, userId, vehicleId) ==> r == Err(VehicleModel.VehicleNotFoundOrDenied)
    ensures VehicleModel.OwnsVehicle(db.vehicles, userId, vehicleId) && IndexOf(old(db.serviceLogs), vehicleId, serviceLogId).None? ==>
      r == Err(ServiceLogNotFound)
    ensures r.Ok? <==> VehicleModel.OwnsVehicle(db.vehicles, userId, vehicleId) && IndexOf(old(db.serviceLogs), vehicleId, serviceLogId).Some?
    ensures r.Ok? ==>
      var i := IndexOf(old(db.serviceLogs), vehicleId, serviceLogId).value;
      && VehicleModel.OwnsVehicle(db.vehicles, userId, vehicleId)
      && db.serviceLogs == RemoveAt(old(db.serviceLogs), i)
      && multiset(db.serviceLogs) == multiset(old(db.serviceLogs)) - multiset{old(db.serviceLogs)[i]}
      && forall l :: l in db.serviceLogs ==> l.id != serviceLogId
  {
    var denied := VehicleModel.VerifyVehicleOwnership(db.vehicles, userId, vehicleId);
    if denied.Some? {
      return Err(denied.value);
    }
    var found := IndexOf(db.serviceLogs, vehicleId, serviceLogId);
    if found.None? {
      return Err(ServiceLogNotFound);
    }
    var i := found.value;
    RemoveKeepsServiceLogsValid(db.serviceLogs, db.nextId, i);
    db.serviceLogs := RemoveAt(db.serviceLogs, i);
    assert ServiceLogsValid(db.serviceLogs, db.nextId);
    r := Ok(());
  }
}
