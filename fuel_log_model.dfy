/** The FuelLog document: a vehicle's refuelling record with non-negative
    amounts, and its read-only queries. */
module FuelLogModel {
  import opened Common
  import opened Sequences
  import opened Pagination

  const MaxNotesLength := 500

  datatype FuelLog = FuelLog(
    id: Id,
    vehicleId: Id,
    date: Time,
    mileage: int,
    fuelAmount: int,
    totalCost: int,
    notes: Option<string>,
    createdAt: Time)

  /** The schema validators: mileage, fuel amount and total cost not
      negative; notes at most 500 characters. */
  predicate SatisfiesSchema(l: FuelLog) {
    && l.mileage >= 0
    && l.fuelAmount >= 0
    && l.totalCost >= 0
    && (l.notes.Some? ==> |l.notes.value| <= MaxNotesLength)
  }

  /** The query `{ vehicleId }`. */
  function OfVehicle(vehicleId: Id): FuelLog -> bool {
    (l: FuelLog) => l.vehicleId == vehicleId
  }

  /** Sort order `{ date: -1 }`: latest first. */
  predicate LatestFirst(a: FuelLog, b: FuelLog) {
    a.date >= b.date
  }

  lemma LatestFirstIsTotalPreorder()
    ensures TotalPreorder(LatestFirst)
  {
  }

  /** The vehicle's logs, latest first, before paging. */
  function SortedOfVehicle(logs: seq<FuelLog>, vehicleId: Id): (r: seq<FuelLog>)
    ensures forall l :: multiset(r)[l] == if l.vehicleId == vehicleId then multiset(logs)[l] else 0
    ensures SortedBy(r, LatestFirst)
  {
    LatestFirstIsTotalPreorder();
    Sort(Filter(logs, OfVehicle(vehicleId)), LatestFirst)
  }

  /** `findByVehicle`: the vehicle's logs, latest first, paged when both
      page and limit are given. */
  function FindByVehicle(logs: seq<FuelLog>, vehicleId: Id, page: Option<int>, limit: Option<int>): (r: seq<FuelLog>)
    requires page.Some? && limit.Some? ==> page.value >= 1 && limit.value >= 1
    ensures forall k :: 0 <= k < |r| ==> r[k] in logs && r[k].vehicleId == vehicleId
    ensures SortedBy(r, LatestFirst)
    ensures page.None? || limit.None? ==>
      forall l :: multiset(r)[l] == if l.vehicleId == vehicleId then multiset(logs)[l] else 0
    ensures page.Some? && limit.Some? ==>
      |r| == (if CalculateSkip(page.value, limit.value) >= |SortedOfVehicle(logs, vehicleId)| then 0 else Min(limit.value, |SortedOfVehicle(logs, vehicleId)| - CalculateSkip(page.value, limit.value))) &&
      forall k :: 0 <= k < |r| ==>
        (CalculateSkip(page.value, limit.value) + k < |SortedOfVehicle(logs, vehicleId)| &&
         r[k] == SortedOfVehicle(logs, vehicleId)[CalculateSkip(page.value, limit.value) + k])
  {
    var all := SortedOfVehicle(logs, vehicleId);
    PagingKeepsOrder(all, page, limit, LatestFirst);
    var r := ApplyPaging(all, page, limit);
    assert forall k :: 0 <= k < |r| ==> r[k] in logs && r[k].vehicleId == vehicleId by {
      forall k | 0 <= k < |r| ensures r[k] in logs && r[k].vehicleId == vehicleId {
        assert multiset(all)[r[k]] > 0;
      }
    }
    r
  }

  /** Index of the first log with that id and that vehicle. */
  function IndexOf(logs: seq<FuelLog>, vehicleId: Id, fuelLogId: Id): (r: Option<nat>)
    ensures r.Some? ==> r.value < |logs| && logs[r.value].id == fuelLogId && logs[r.value].vehicleId == vehicleId
    ensures r.None? ==> forall k :: 0 <= k < |logs| ==> !(logs[k].id == fuelLogId && logs[k].vehicleId == vehicleId)
  {
    FindFirst(logs, (l: FuelLog) => l.id == fuelLogId && l.vehicleId == vehicleId)
  }

  /** `findByVehicleAndId`: a log is returned only when both its id and its vehicle match. */
  function FindByVehicleAndId(logs: seq<FuelLog>, vehicleId: Id, fuelLogId: Id): (r: Option<FuelLog>)
    ensures r.Some? ==> r.value in logs && r.value.id == fuelLogId && r.value.vehicleId == vehicleId
    ensures r.None? <==> !exists l :: l in logs && l.id == fuelLogId && l.vehicleId == vehicleId
  {
    match IndexOf(logs, vehicleId, fuelLogId)
    case None => None
    case Some(i) => Some(logs[i])
  }

  /** `countByVehicle`: `countDocuments({ vehicleId })`. */
  function CountByVehicle(logs: seq<FuelLog>, vehicleId: Id): nat {
    Count(logs, OfVehicle(vehicleId))
  }

  /** The count is the length of the unpaged list. */
  lemma CountMatchesFind(logs: seq<FuelLog>, vehicleId: Id)
    ensures CountByVehicle(logs, vehicleId) == |FindByVehicle(logs, vehicleId, None, None)|
  {
    var filtered := Filter(logs, OfVehicle(vehicleId));
    FilterHasCount(logs, OfVehicle(vehicleId));
    LatestFirstIsTotalPreorder();
    assert |Sort(filtered, LatestFirst)| == |multiset(Sort(filtered, LatestFirst))| == |multiset(filtered)|;
  }
}
