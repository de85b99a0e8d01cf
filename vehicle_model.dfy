/** The Vehicle document: an owned record with bounded fields, and the two
    read-only queries every service uses to reach a user's vehicles. */
module VehicleModel {
  import opened Common
  import opened Sequences

  const MaxNameLength := 100
  const MaxMakeLength := 50
  const MaxModelLength := 50
  const MinYear := 1900

  datatype Vehicle = Vehicle(
    id: Id,
    userId: Id,
    name: string,
    make: string,
    vehicleModel: string,
    year: int,
    mileage: Option<int>,
    createdAt: Time)

  /** The schema validators: name, make and model required (non-empty) and
      capped at 100, 50 and 50 characters; year in [1900, maxYear]; mileage,
      when present, not negative. `maxYear` is the current year plus one,
      read once when the schema is defined. */
  predicate SatisfiesSchema(v: Vehicle, maxYear: int) {
    && 0 < |v.name| <= MaxNameLength
    && 0 < |v.make| <= MaxMakeLength
    && 0 < |v.vehicleModel| <= MaxModelLength
    && MinYear <= v.year <= maxYear
    && (v.mileage.Some? ==> v.mileage.value >= 0)
  }

  /** Sort order `{ createdAt: -1 }`: newest first. */
  predicate NewestFirst(a: Vehicle, b: Vehicle) {
    a.createdAt >= b.createdAt
  }

  lemma NewestFirstIsTotalPreorder()
    ensures TotalPreorder(NewestFirst)
  {
  }

  /** `findByUser`: the user's vehicles, newest first. */
  function FindByUser(vehicles: seq<Vehicle>, userId: Id): (r: seq<Vehicle>)
    ensures forall v :: multiset(r)[v] == if v.userId == userId then multiset(vehicles)[v] else 0
    ensures SortedBy(r, NewestFirst)
  {
    NewestFirstIsTotalPreorder();
    Sort(Filter(vehicles, (v: Vehicle) => v.userId == userId), NewestFirst)
  }

  /** The index `findByUserAndId` reads: the first vehicle with that id and owner. */
  function IndexOfOwned(vehicles: seq<Vehicle>, userId: Id, vehicleId: Id): (r: Option<nat>)
    ensures r.Some? ==> r.value < |vehicles|
    ensures r.Some? ==> vehicles[r.value].id == vehicleId && vehicles[r.value].userId == userId
    ensures r.Some? ==> forall k :: 0 <= k < r.value ==> !(vehicles[k].id == vehicleId && vehicles[k].userId == userId)
    ensures r.None? ==> forall k :: 0 <= k < |vehicles| ==> !(vehicles[k].id == vehicleId && vehicles[k].userId == userId)
  {
    FindFirst(vehicles, (v: Vehicle) => v.id == vehicleId && v.userId == userId)
  }

  /** `findByUserAndId`: a vehicle is returned only when both its id and its owner match. */
  function FindByUserAndId(vehicles: seq<Vehicle>, userId: Id, vehicleId: Id): (r: Option<Vehicle>)
    ensures r.Some? ==> r.value in vehicles && r.value.id == vehicleId && r.value.userId == userId
    ensures r.None? <==> !exists v :: v in vehicles && v.id == vehicleId && v.userId == userId
  {
    match IndexOfOwned(vehicles, userId, vehicleId)
    case None => None
    case Some(i) => Some(vehicles[i])
  }

  /** The ownership predicate every vehicle-scoped operation is gated by. */
  predicate OwnsVehicle(vehicles: seq<Vehicle>, userId: Id, vehicleId: Id) {
    FindByUserAndId(vehicles, userId, vehicleId).Some?
  }

  /** The message the fuel-log, service-log and reminder services raise. */
  const VehicleNotFoundOrDenied := HttpError(404, "Vehicle not found or access denied")

  /** `verifyVehicleOwnership`: 404 unless the user owns the vehicle. The
      same error answers a missing vehicle and another user's vehicle. */
  function VerifyVehicleOwnership(vehicles: seq<Vehicle>, userId: Id, vehicleId: Id): (r: Option<Error>)
    ensures r.None? <==> exists v :: v in vehicles && v.id == vehicleId && v.userId == userId
    ensures r.Some? ==> r.value == VehicleNotFoundOrDenied
  {
    if OwnsVehicle(vehicles, userId, vehicleId) then None else Some(VehicleNotFoundOrDenied)
  }
}
