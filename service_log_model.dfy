/** The ServiceLog document: a vehicle's maintenance record with bounded
    text fields, and its read-only queries. */
module ServiceLogModel {
  import opened Common
  import opened Sequences
  import opened Pagination

  const MaxServiceTypeLength := 100
  const MaxDescriptionLength := 500
  const MaxMechanicLength := 100
  const MaxNotesLength := 500

  datatype ServiceLog = ServiceLog(
    id: Id,
    vehicleId: Id,
    date: Time,
    mileage: int,
    serviceType: string,
    description: Option<string>,
    mechanic: Option<string>,
    totalCost: int,
    notes: Option<string>,
    createdAt: Time)

  /** The schema validators: mileage and total cost not negative; service
      type required and at most 100 characters; description at most 500,
      mechanic at most 100, notes at most 500. */
  predicate SatisfiesSchema(l: ServiceLog) {
    && l.mileage >= 0
    && l.totalCost >= 0
    && 0 < |l.serviceType| <= MaxServiceTypeLength
    && (l.description.Some? ==> |l.description.value| <= MaxDescriptionLength)
    && (l.mechanic.Some? ==> |l.mechanic.value| <= MaxMechanicLength)
    && (l.notes.Some? ==> |l.notes.value| <= MaxNotesLength)
  }

  /** The query `{ vehicleId }`. */
  function OfVehicle(vehicleId: Id): ServiceLog -> bool {
    (l: ServiceLog) => l.vehicleId == vehicleId
  }

  /** Sort order `{ date: -1 }`: latest first. */
  predicate LatestFirst(a: ServiceLog, b: ServiceLog) {
    a.date >= b.date
  }

  lemma LatestFirstIsTotalPreorder()
    ensures TotalPreorder(LatestFirst)
  {
  }

  /** The vehicle's logs, latest first, before paging. */
  function SortedOfVehicle(logs: seq<ServiceLog>, vehicleId: Id): (r: seq<ServiceLog>)
    ensures forall l :: multiset(r)[l] == if l.vehicleId == vehicleId then multiset(logs)[l] else 0
    ensures SortedBy(r, LatestFirst)
  {
    LatestFirstIsTotalPreorder();
    Sort(Filter(logs, OfVehicle(vehicleId)), LatestFirst)
  }

  /** `findByVehicle`: the vehicle's logs, latest first, paged when both
      page and limit are given. */
  function FindByVehicle(logs: seq<ServiceLog>, vehicleId: Id, page: Option<int>, limit: Option<int>): (r: seq<ServiceLog>)
    requires page.Some? && limit.Some? ==> page.value >= 1 && limit.value >= 1
    ensures forall k :: 0 <= k < |r| ==> r[k] in logs && r[k].vehicleId == vehicleId
    ensures SortedBy(r, LatestFirst)
    ensures page.None? || limit.None? ==>
      forall l :: multiset(r)[l] == if l.vehicleId == vehicleId then multiset(logs)[l] else 0
    ensures page.Some? && limit.Some? ==>
      |r| == (if CalculateSkip(page.value, limit.value) >= |SortedOfVehicle(logs, vehicleId)| then 0 else Min(limit.value, |SortedOfVehicle(logs, vehicleId)| - CalculateSkip(page.value, limit.value))) &&
      forall k :: 0 <= k < |r| ==>
        (CalculateSkip(page.value, limit.value) + k < |SortedOfVehicle(logs, vehicleId)| &&
         r[k] == SortedOfVehicle(logs, vehicleId)[CalculateSkip(page.value, limit.value) + k])
  {
    var all := SortedOfVehicle(logs, vehicleId);
    PagingKeepsOrder(all, page, limit, LatestFirst);
    var r := ApplyPaging(all, page, limit);
    assert forall k :: 0 <= k < |r| ==> r[k] in logs && r[k].vehicleId == vehicleId by {
      forall k | 0 <= k < |r| ensures r[k] in logs && r[k].vehicleId == vehicleId {
        assert multiset(all)[r[k]] > 0;
      }
    }
    r
  }

  /** Index of the first log with that id and that vehicle. */
  function IndexOf(logs: seq<ServiceLog>, vehicleId: Id, serviceLogId: Id): (r: Option<nat>)
    ensures r.Some? ==> r.value < |logs| && logs[r.value].id == serviceLogId && logs[r.value].vehicleId == vehicleId
    ensures r.None? ==> forall k :: 0 <= k < |logs| ==> !(logs[k].id == serviceLogId && logs[k].vehicleId == vehicleId)
  {
    FindFirst(logs, (l: ServiceLog) => l.id == serviceLogId && l.vehicleId == vehicleId)
  }

  /** `findByVehicleAndId`: a log is returned only when both its id and its vehicle match. */
  function FindByVehicleAndId(logs: seq<ServiceLog>, vehicleId: Id, serviceLogId: Id): (r: Option<ServiceLog>)
    ensures r.Some? ==> r.value in logs && r.value.id == serviceLogId && r.value.vehicleId == vehicleId
    ensures r.None? <==> !exists l :: l in logs && l.id == serviceLogId && l.vehicleId == vehicleId
  {
    match IndexOf(logs, vehicleId, serviceLogId)
    case None => None
    case Some(i) => Some(logs[i])
  }

  /** `countByVehicle`: `countDocuments({ vehicleId })`. */
  function CountByVehicle(logs: seq<ServiceLog>, vehicleId: Id): nat {
    Count(logs, OfVehicle(vehicleId))
  }

  /** The count is the length of the unpaged list. */
  lemma CountMatchesFind(logs: seq<ServiceLog>, vehicleId: Id)
    ensures CountByVehicle(logs, vehicleId) == |FindByVehicle(logs, vehicleId, None, None)|
  {
    var filtered := Filter(logs, OfVehicle(vehicleId));
    FilterHasCount(logs, OfVehicle(vehicleId));
    LatestFirstIsTotalPreorder();
    assert |Sort(filtered, LatestFirst)| == |multiset(Sort(filtered, LatestFirst))| == |multiset(filtered)|;
  }
}
