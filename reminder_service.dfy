/** The reminder endpoints: the ownership check, then reminders of that
    vehicle only. A reminder is created open; completing and reopening it
    are guarded transitions, and a general update may also set or clear the
    completion, keeping an existing completion time. */
module ReminderService {
  import opened Common
  import opened Sequences
  import opened Pagination
  import VehicleModel
  import opened ReminderModel
  import opened Store

  const ReminderNotFound := HttpError(404, "Reminder not found")
  const DueDateRequired := HttpError(400, "dueDate is required for date-type reminders")
  const DueMileageRequired := HttpError(400, "dueMileage is required for mileage-type reminders")
  const AlreadyCompleted := HttpError(400, "Reminder is already completed")
  const NotCompleted := HttpError(400, "Reminder is not completed")

  /** The fields `createReminder` takes. */
  datatype ReminderCreateData = ReminderCreateData(
    title: string, kind: ReminderType, dueDate: Option<Time>, dueMileage: Option<int>, notes: Option<string>)

  /** The fields `updateReminder` takes; None is a field left out of the request. */
  datatype ReminderUpdateData = ReminderUpdateData(
    title: Option<string>, kind: Option<ReminderType>, dueDate: Option<Time>, dueMileage: Option<int>,
    isCompleted: Option<bool>, notes: Option<string>)

  const EmptyPatch := ReminderUpdateData(None, None, None, None, None, None)

  /** A page of reminders with its metadata. */
  datatype ReminderList = ReminderList(data: seq<Reminder>, pagination: PaginationMeta)

  /** `getAllReminders`: 404 unless the user owns the vehicle; otherwise one
      page of the vehicle's reminders under the filter, and metadata whose
      total is the count under the same filter. The page is empty exactly
      when it lies past the last page. */
  function GetAllReminders(vehicles: seq<VehicleModel.Vehicle>, reminders: seq<Reminder>, userId: Id, vehicleId: Id,
                           page: int, limit: int, filter: ReminderFilter): (r: Result<ReminderList>)
    requires page >= 1 && limit >= 1
    ensures r.Err? <==> !VehicleModel.OwnsVehicle(vehicles, userId, vehicleId)
    ensures r.Err? ==> r.error == VehicleModel.VehicleNotFoundOrDenied
    ensures r.Ok? ==> r.value.pagination == BuildPaginationMeta(page, limit, CountByVehicle(reminders, vehicleId, Some(filter)))
    ensures r.Ok? ==> SortedBy(r.value.data, OrderFor(Some(filter)))
    ensures r.Ok? ==>
      var sorted := SortedMatching(reminders, vehicleId, Some(filter));
      var skip := CalculateSkip(page, limit);
      && |r.value.data| == (if skip >= |sorted| then 0 else Min(limit, |sorted| - skip))
      && forall k :: 0 <= k < |r.value.data| ==> skip + k < |sorted| && r.value.data[k] == sorted[skip + k]
    ensures r.Ok? ==> forall k :: 0 <= k < |r.value.data| ==>
      r.value.data[k] in reminders && r.value.data[k].vehicleId == vehicleId && Admits(Some(filter), r.value.data[k])
    ensures r.Ok? ==> (|r.value.data| > 0 <==> page <= r.value.pagination.totalPages)
  {
    match VehicleModel.VerifyVehicleOwnership(vehicles, userId, vehicleId)
    case Some(e) => Err(e)
    case None =>
      var total := CountByVehicle(reminders, vehicleId, Some(filter));
      CountMatchesFind(reminders, vehicleId, Some(filter));
      PageMatchesMeta(SortedMatching(reminders, vehicleId, Some(filter)), page, limit);
      var data := FindByVehicle(reminders, vehicleId, FindOptions(Some(page), Some(limit), Some(filter)));
      Ok(ReminderList(data, BuildPaginationMeta(page, limit, total)))
  }

  /** `getReminderById`: the ownership check first, then 404 unless the
      reminder belongs to that vehicle. */
  function GetReminderById(vehicles: seq<VehicleModel.Vehicle>, reminders: seq<Reminder>, userId: Id, vehicleId: Id, reminderId: Id)
    : (r: Result<Reminder>)
    ensures !VehicleModel.OwnsVehicle(vehicles, userId, vehicleId) ==> r == Err(VehicleModel.VehicleNotFoundOrDenied)
    ensures VehicleModel.OwnsVehicle(vehicles, userId, vehicleId) ==>
      (r.Ok? <==> exists x :: x in reminders && x.id == reminderId && x.vehicleId == vehicleId)
    ensures VehicleModel.OwnsVehicle(vehicles, userId, vehicleId) && r.Err? ==> r.error == ReminderNotFound
    ensures r.Ok? ==> r.value in reminders && r.value.id == reminderId && r.value.vehicleId == vehicleId
  {
    match VehicleModel.VerifyVehicleOwnership(vehicles, userId, vehicleId)
    case Some(e) => Err(e)
    case None =>
      match FindByVehicleAndId(reminders, vehicleId, reminderId)
      case None => Err(ReminderNotFound)
      case Some(x) => Ok(x)
  }

  /** The type-dependent checks of `createReminder`: a date reminder needs a
      due date, a mileage reminder a due mileage. */
  function CreateCheck(data: ReminderCreateData): (r: Option<Error>)
    ensures r.None? <==> (data.kind == ByDate ==> data.dueDate.Some?) && (data.kind == ByMileage ==> data.dueMileage.Some?)
    ensures r == Some(DueDateRequired) <==> data.kind == ByDate && data.dueDate.None?
    ensures r == Some(DueMileageRequired) <==> data.kind == ByMileage && data.dueMileage.None?
  {
    if data.kind == ByDate && data.dueDate.None? then Some(DueDateRequired)
    else if data.kind == ByMileage && data.dueMileage.None? then Some(DueMileageRequired)
    else None
  }

  /** The document `Reminder.create` builds: open, with no completion time. */
  function NewReminder(id: Id, vehicleId: Id, data: ReminderCreateData, now: Time): (x: Reminder)
    ensures x.id == id && x.vehicleId == vehicleId && x.createdAt == now
    ensures !x.isCompleted && x.completedAt.None? && CompletionConsistent(x)
    ensures x.title == data.title && x.kind == data.kind && x.dueDate == data.dueDate
    ensures x.dueMileage == data.dueMileage && x.notes == data.notes
  {
    Reminder(id, vehicleId, data.title, data.kind, data.dueDate, data.dueMileage, false, None, data.notes, now)
  }

  /** The `set()` calls of `updateReminder`. Each field given replaces the
      stored one. Setting `isCompleted` true keeps an existing completion
      time and stamps `now` only when there is none; setting it false clears
      the completion time; leaving it out leaves both alone. */
  function ApplyPatch(x: Reminder, patch: ReminderUpdateData, now: Time): (r: Reminder)
    ensures r.id == x.id && r.vehicleId == x.vehicleId && r.createdAt == x.createdAt
    ensures patch.title.None? ==> r.title == x.title
    ensures patch.title.Some? ==> r.title == patch.title.value
    ensures patch.kind.None? ==> r.kind == x.kind
    ensures patch.kind.Some? ==> r.kind == patch.kind.value
    ensures patch.dueDate.None? ==> r.dueDate == x.dueDate
    ensures patch.dueDate.Some? ==> r.dueDate == patch.dueDate
    ensures patch.dueMileage.None? ==> r.dueMileage == x.dueMileage
    ensures patch.dueMileage.Some? ==> r.dueMileage == patch.dueMileage
    ensures patch.notes.None? ==> r.notes == x.notes
    ensures patch.notes.Some? ==> r.notes == patch.notes
    ensures patch.isCompleted.None? ==> r.isCompleted == x.isCompleted && r.completedAt == x.completedAt
    ensures patch.isCompleted == Some(true) ==>
      r.isCompleted && r.completedAt.Some? && (x.completedAt.Some? ==> r.completedAt == x.completedAt)
    ensures patch.isCompleted == Some(true) && x.completedAt.None? ==> r.completedAt == Some(now)
    ensures patch.isCompleted == Some(false) ==> !r.isCompleted && r.completedAt.None?
  {
    var isCompleted := if patch.isCompleted.Some? then patch.isCompleted.value else x.isCompleted;
    var completedAt :=
      if patch.isCompleted == Some(false) then None
      else if patch.isCompleted == Some(true) && x.completedAt.None? then Some(now)
      else x.completedAt;
    Reminder(
      x.id,
      x.vehicleId,
      if patch.title.Some? then patch.title.value else x.title,
      if patch.kind.Some? then patch.kind.value else x.kind,
      if patch.dueDate.Some? then patch.dueDate else x.dueDate,
      if patch.dueMileage.Some? then patch.dueMileage else x.dueMileage,
      isCompleted,
      completedAt,
      if patch.notes.Some? then patch.notes else x.notes,
      x.createdAt)
  }

  /** An update keeps the completion record consistent. */
  lemma PatchKeepsCompletionConsistent(x: Reminder, patch: ReminderUpdateData, now: Time)
    requires CompletionConsistent(x)
    ensures CompletionConsistent(ApplyPatch(x, patch, now))
  {
  }

  /** An empty patch changes nothing; a patch applied a second time, even at
      a later time, changes nothing more: the first completion time stays. */
  lemma PatchLaws(x: Reminder, patch: ReminderUpdateData, now: Time, later: Time)
    ensures ApplyPatch(x, EmptyPatch, now) == x
    ensures ApplyPatch(ApplyPatch(x, patch, now), patch, later) == ApplyPatch(x, patch, now)
  {
  }

  /** The transition of `markAsCompleted`: 400 on a completed reminder;
      otherwise completed now. */
  function Complete(x: Reminder, now: Time): (r: Result<Reminder>)
    ensures x.isCompleted <==> r == Err(AlreadyCompleted)
    ensures r.Ok? ==> r.value == x.(isCompleted := true, completedAt := Some(now))
    ensures r.Ok? ==> CompletionConsistent(r.value)
  {
    if x.isCompleted then Err(AlreadyCompleted) else Ok(x.(isCompleted := true, completedAt := Some(now)))
  }

  /** The transition of `markAsIncomplete`: 400 on an open reminder;
      otherwise open with no completion time. */
  function Reopen(x: Reminder): (r: Result<Reminder>)
    ensures !x.isCompleted <==> r == Err(NotCompleted)
    ensures r.Ok? ==> r.value == x.(isCompleted := false, completedAt := None)
    ensures r.Ok? ==> CompletionConsistent(r.value)
  {
    if !x.isCompleted then Err(NotCompleted) else Ok(x.(isCompleted := false, completedAt := None))
  }

  /** Exactly one of the two transitions applies to any reminder, and
      completing then reopening gives back the open reminder. */
  lemma CompleteThenReopen(x: Reminder, now: Time)
    requires CompletionConsistent(x)
    ensures Complete(x, now).Ok? != Reopen(x).Ok?
    ensures Complete(x, now).Ok? ==> Reopen(Complete(x, now).value) == Ok(x)
  {
  }

  /** The completion transitions agree with the general update: completing
      is the update `isCompleted: true` on an open reminder, and reopening
      the update `isCompleted: false` on a completed one. */
  lemma TransitionsAreUpdates(x: Reminder, now: Time)
    requires CompletionConsistent(x)
    ensures !x.isCompleted ==> Complete(x, now) == Ok(ApplyPatch(x, EmptyPatch.(isCompleted := Some(true)), now))
    ensures x.isCompleted ==> Reopen(x) == Ok(ApplyPatch(x, EmptyPatch.(isCompleted := Some(false)), now))
  {
  }

  /** A reminder carries the due field its type calls for. */
  predicate HasDueField(x: Reminder) {
    (x.kind == ByDate ==> x.dueDate.Some?) && (x.kind == ByMileage ==> x.dueMileage.Some?)
  }

  /** Every reminder that passes the create checks carries its due field. */
  lemma CreatedHasDueField(id: Id, vehicleId: Id, data: ReminderCreateData, now: Time)
    requires CreateCheck(data).None?
    ensures HasDueField(NewReminder(id, vehicleId, data, now))
  {
  }

  /** The update does not repeat the create checks: switching a mileage
      reminder to the date type leaves a date reminder without a due date. */
  lemma UpdateMayDropDueField()
    ensures var x := Reminder(0, 0, "Oil change", ByMileage, None, Some(15000), false, None, None, 0);
      HasDueField(x) && !HasDueField(ApplyPatch(x, EmptyPatch.(kind := Some(ByDate)), 0))
  {
  }

  /** `createReminder`: the ownership check, then the type-dependent
      checks; otherwise a new open reminder, unless the schema rejects it. */
  method CreateReminder(db: Database, userId: Id, vehicleId: Id, data: ReminderCreateData, now: Time) returns (r: Result<Reminder>)
    requires db.Valid()
    modifies db`reminders, db`nextId
    ensures db.Valid()
    ensures !VehicleModel.OwnsVehicle(db.vehicles, userId, vehicleId) ==> r == Err(VehicleModel.VehicleNotFoundOrDenied)
    ensures VehicleModel.OwnsVehicle(db.vehicles, userId, vehicleId) && CreateCheck(data).Some? ==> r == Err(CreateCheck(data).value)
    ensures VehicleModel.OwnsVehicle(db.vehicles, userId, vehicleId) && CreateCheck(data).None? ==>
      (r.Ok? <==> SatisfiesSchema(NewReminder(old(db.nextId), vehicleId, data, now)))
    ensures VehicleModel.OwnsVehicle(db.vehicles, userId, vehicleId) && CreateCheck(data).None? ==>
      !SatisfiesSchema(NewReminder(old(db.nextId), vehicleId, data, now)) ==> r == Err(ValidationFailed)
    ensures r.Ok? ==> r.value == NewReminder(old(db.nextId), vehicleId, data, now) && db.reminders == old(db.reminders) + [r.value]
    ensures r.Err? ==> db.reminders == old(db.reminders) && db.nextId == old(db.nextId)
  {
    var denied := VehicleModel.VerifyVehicleOwnership(db.vehicles, userId, vehicleId);
    if denied.Some? {
      return Err(denied.value);
    }
    if data.kind == ByDate && data.dueDate.None? {
      return Err(DueDateRequired);
    }
    if data.kind == ByMileage && data.dueMileage.None? {
      return Err(DueMileageRequired);
    }
    var reminder := NewReminder(db.nextId, vehicleId, data, now);
    if !SatisfiesSchema(reminder) {
      return Err(ValidationFailed);
    }
    var id := db.NewId();
    db.reminders := db.reminders + [reminder];
    assert RemindersValid(db.reminders, db.nextId);
    r := Ok(reminder);
  }

  /** `updateReminder`: the ownership check, then 404 unless the reminder
      belongs to the vehicle; otherwise the patch is applied and saved,
      unless the schema rejects the result. Nothing changes on an error. */
  method UpdateReminder(db: Database, userId: Id, vehicleId: Id, reminderId: Id, patch: ReminderUpdateData, now: Time)
    returns (r: Result<Reminder>)
    requires db.Valid()
    modifies db`reminders
    ensures db.Valid()
    ensures r.Err? ==> db.reminders == old(db.reminders)
    ensures !VehicleModel.OwnsVehicle(db.vehicles, userId, vehicleId) ==> r == Err(VehicleModel.VehicleNotFoundOrDenied)
    ensures VehicleModel.OwnsVehicle(db.vehicles, userId, vehicleId) && IndexOf(old(db.reminders), vehicleId, reminderId).None? ==>
      r == Err(ReminderNotFound)
    ensures VehicleModel.OwnsVehicle(db.vehicles, userId, vehicleId) && IndexOf(old(db.reminders), vehicleId, reminderId).Some? ==>
      var i := IndexOf(old(db.reminders), vehicleId, reminderId).value;
      var updated := ApplyPatch(old(db.reminders)[i], patch, now);
      && (SatisfiesSchema(updated) ==> r == Ok(updated) && db.reminders == old(db.reminders)[i := updated])
      && (!SatisfiesSchema(updated) ==> r == Err(ValidationFailed))
  {
    var denied := VehicleModel.VerifyVehicleOwnership(db.vehicles, userId, vehicleId);
    if denied.Some? {
      return Err(denied.value);
    }
    var found := IndexOf(db.reminders, vehicleId, reminderId);
    if found.None? {
      return Err(ReminderNotFound);
    }
    var i := found.value;
    var original := db.reminders[i];
    var reminder := ApplyPatch(original, patch, now);
    if !SatisfiesSchema(reminder) {
      return Err(ValidationFailed);
    }
    PatchKeepsCompletionConsistent(original, patch, now);
    SetKeepsRemindersValid(db.reminders, db.nextId, i, reminder);
    db.reminders := db.reminders[i := reminder];
    assert RemindersValid(db.reminders, db.nextId);
    r := Ok(reminder);
  }

  /** `deleteReminder`: the ownership check, then 404 unless the reminder
      belongs to the vehicle; otherwise exactly that reminder is removed. */
  method DeleteReminder(db: Database, userId: Id, vehicleId: Id, reminderId: Id) returns (r: Result<()>)
    requires db.Valid()
    modifies db`reminders
    ensures db.Valid()
    ensures r.Err? ==> db.reminders == old(db.reminders)
    ensures !VehicleModel.OwnsVehicle(db.vehicles, userId, vehicleId) ==> r == Err(VehicleModel.VehicleNotFoundOrDenied)
    ensures VehicleModel.OwnsVehicle(db.vehicles, userId, vehicleId) && IndexOf(old(db.reminders), vehicleId, reminderId).None? ==>
      r == Err(ReminderNotFound)
    ensures r.Ok? <==> VehicleModel.OwnsVehicle(db.vehicles, userId, vehicleId) && IndexOf(old(db.reminders), vehicleId, reminderId).Some?
    ensures r.Ok? ==>
      var i := IndexOf(old(db.reminders), vehicleId, reminderId).value;
      && VehicleModel.OwnsVehicle(db.vehicles, userId, vehicleId)
      && db.reminders == RemoveAt(old(db.reminders), i)
      && multiset(db.reminders) == multiset(old(db.reminders)) - multiset{old(db.reminders)[i]}
      && forall x :: x in db.reminders ==> x.id != reminderId
  {
    var denied := VehicleModel.VerifyVehicleOwnership(db.vehicles, userId, vehicleId);
    if denied.Some? {
      return Err(denied.value);
    }
    var found := IndexOf(db.reminders, vehicleId, reminderId);
    if found.None? {
      return Err(ReminderNotFound);
    }
    var i := found.value;
    RemoveKeepsRemindersValid(db.reminders, db.nextId, i);
    db.reminders := RemoveAt(db.reminders, i);
    assert RemindersValid(db.reminders, db.nextId);
    r := Ok(());
  }

  /** `markAsCompleted`: the ownership check, 404 unless the reminder
      belongs to the vehicle, 400 when it is already completed; otherwise it
      is completed now. */
  method MarkAsCompleted(db: Database, userId: Id, vehicleId: Id, reminderId: Id, now: Time) returns (r: Result<Reminder>)
    requires db.Valid()
    modifies db`reminders
    ensures db.Valid()
    ensures r.Err? ==> db.reminders == old(db.reminders)
    ensures !VehicleModel.OwnsVehicle(db.vehicles, userId, vehicleId) ==> r == Err(VehicleModel.VehicleNotFoundOrDenied)
    ensures VehicleModel.OwnsVehicle(db.vehicles, userId, vehicleId) && IndexOf(old(db.reminders), vehicleId, reminderId).None? ==>
      r == Err(ReminderNotFound)
    ensures VehicleModel.OwnsVehicle(db.vehicles, userId, vehicleId) && IndexOf(old(db.reminders), vehicleId, reminderId).Some? ==>
      var i := IndexOf(old(db.reminders), vehicleId, reminderId).value;
      && r == Complete(old(db.reminders)[i], now)
      && (r.Ok? ==> db.reminders == old(db.reminders)[i := r.value])
  {
    var denied := VehicleModel.VerifyVehicleOwnership(db.vehicles, userId, vehicleId);
    if denied.Some? {
      return Err(denied.value);
    }
    var found := IndexOf(db.reminders, vehicleId, reminderId);
    if found.None? {
      return Err(ReminderNotFound);
    }
    var i := found.value;
    var reminder := db.reminders[i];
    if reminder.isCompleted {
      return Err(AlreadyCompleted);
    }
    reminder := reminder.(isCompleted := true);
    reminder := reminder.(completedAt := Some(now));
    SetKeepsRemindersValid(db.reminders, db.nextId, i, reminder);
    db.reminders := db.reminders[i := reminder];
    assert RemindersValid(db.reminders, db.nextId);
    r := Ok(reminder);
  }

  /** `markAsIncomplete`: the ownership check, 404 unless the reminder
      belongs to the vehicle, 400 when it is not completed; otherwise it is
      reopened and its completion time cleared. */
  method MarkAsIncomplete(db: Database, userId: Id, vehicleId: Id, reminderId: Id) returns (r: Result<Reminder>)
    requires db.Valid()
    modifies db`reminders
    ensures db.Valid()
    ensures r.Err? ==> db.reminders == old(db.reminders)
    ensures !VehicleModel.OwnsVehicle(db.vehicles, userId, vehicleId) ==> r == Err(VehicleModel.VehicleNotFoundOrDenied)
    ensures VehicleModel.OwnsVehicle(db.vehicles, userId, vehicleId) && IndexOf(old(db.reminders), vehicleId, reminderId).None? ==>
      r == Err(ReminderNotFound)
    ensures VehicleModel.OwnsVehicle(db.vehicles, userId, vehicleId) && IndexOf(old(db.reminders), vehicleId, reminderId).Some? ==>
      var i := IndexOf(old(db.reminders), vehicleId, reminderId).value;
      && r == Reopen(old(db.reminders)[i])
      && (r.Ok? ==> db.reminders == old(db.reminders)[i := r.value])
  {
    var denied := VehicleModel.VerifyVehicleOwnership(db.vehicles, userId, vehicleId);
    if denied.Some? {
      return Err(denied.value);
    }
    var found := IndexOf(db.reminders, vehicleId, reminderId);
    if found.None? {
      return Err(ReminderNotFound);
    }
    var i := found.value;
    var reminder := db.reminders[i];
    if !reminder.isCompleted {
      return Err(NotCompleted);
    }
    reminder := reminder.(isCompleted := false);
    reminder := reminder.(completedAt := None);
    SetKeepsRemindersValid(db.reminders, db.nextId, i, reminder);
    db.reminders := db.reminders[i := reminder];
    assert RemindersValid(db.reminders, db.nextId);
    r := Ok(reminder);
  }
}
