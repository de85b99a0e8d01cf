/** The Reminder document: a due-date or due-mileage reminder with a
    completion flag, and its read-only queries (filter, sort, page, count). */
module ReminderModel {
  import opened Common
  import opened Sequences
  import opened Pagination
  import Json

  const MaxTitleLength := 200
  const MaxNotesLength := 500

  /** The enum `ReminderType`: 'date' or 'mileage'. */
  datatype ReminderType = ByDate | ByMileage

  /** The enum `ReminderFilter`: 'active', 'completed' or 'all'. */
  datatype ReminderFilter = Active | Completed | All

  datatype Reminder = Reminder(
    id: Id,
    vehicleId: Id,
    title: string,
    kind: ReminderType,
    dueDate: Option<Time>,
    dueMileage: Option<int>,
    isCompleted: bool,
    completedAt: Option<Time>,
    notes: Option<string>,
    createdAt: Time)

  /** The schema validators: title required and at most 200 characters; due
      mileage, when present, not negative; notes at most 500 characters. */
  predicate SatisfiesSchema(r: Reminder) {
    && 0 < |r.title| <= MaxTitleLength
    && (r.dueMileage.Some? ==> r.dueMileage.value >= 0)
    && (r.notes.Some? ==> |r.notes.value| <= MaxNotesLength)
  }

  /** The completion record is consistent: a completion time is stored
      exactly when the reminder is completed. */
  predicate CompletionConsistent(r: Reminder) {
    r.isCompleted <==> r.completedAt.Some?
  }

  /** The controller's reading of `?filter=`: one of the three enum values,
      and `all` for anything else or nothing. */
  function ParseFilter(param: Option<string>): (f: ReminderFilter)
    ensures f == Active <==> param == Some("active")
    ensures f == Completed <==> param == Some("completed")
    ensures f == All <==> !(param == Some("active") || param == Some("completed"))
  {
    if param == Some("active") then Active
    else if param == Some("completed") then Completed
    else All
  }

  /** The completion part of the query: ACTIVE asks `isCompleted: false`,
      COMPLETED asks `isCompleted: true`, ALL or no filter asks nothing. */
  predicate Admits(filter: Option<ReminderFilter>, r: Reminder) {
    match filter
    case Some(Active) => !r.isCompleted
    case Some(Completed) => r.isCompleted
    case _ => true
  }

  /** The whole query: `{ vehicleId }` plus the completion part. */
  function Matching(vehicleId: Id, filter: Option<ReminderFilter>): Reminder -> bool {
    (r: Reminder) => r.vehicleId == vehicleId && Admits(filter, r)
  }

  /** Sort `{ isCompleted: 1, createdAt: -1 }`: active first, then newest first. */
  predicate ActiveFirstNewest(a: Reminder, b: Reminder) {
    (!a.isCompleted && b.isCompleted) || (a.isCompleted == b.isCompleted && a.createdAt >= b.createdAt)
  }

  /** `completedAt: -1`: later completion first; a missing completion time
      sorts after every present one. */
  predicate CompletedNoEarlier(x: Option<Time>, y: Option<Time>) {
    match y
    case None => true
    case Some(t) => x.Some? && x.value >= t
  }

  /** Sort `{ isCompleted: 1, completedAt: -1 }`: active first, then most
      recently completed first. */
  predicate ActiveFirstRecentlyCompleted(a: Reminder, b: Reminder) {
    (!a.isCompleted && b.isCompleted) || (a.isCompleted == b.isCompleted && CompletedNoEarlier(a.completedAt, b.completedAt))
  }

  lemma ActiveFirstNewestIsTotalPreorder()
    ensures TotalPreorder(ActiveFirstNewest)
  {
  }

  lemma ActiveFirstRecentlyCompletedIsTotalPreorder()
    ensures TotalPreorder(ActiveFirstRecentlyCompleted)
  {
  }

  /** The sort order chosen by the filter: by completion time under
      COMPLETED, by creation time otherwise. */
  function OrderFor(filter: Option<ReminderFilter>): (le: (Reminder, Reminder) -> bool)
    ensures TotalPreorder(le)
  {
    ActiveFirstNewestIsTotalPreorder();
    ActiveFirstRecentlyCompletedIsTotalPreorder();
    if filter == Some(Completed) then ActiveFirstRecentlyCompleted else ActiveFirstNewest
  }

  /** The options argument of `findByVehicle`. */
  datatype FindOptions = FindOptions(page: Option<int>, limit: Option<int>, filter: Option<ReminderFilter>)

  predicate ValidOptions(o: FindOptions) {
    o.page.Some? && o.limit.Some? ==> o.page.value >= 1 && o.limit.value >= 1
  }

  /** The matching reminders in query order, before paging. */
  function SortedMatching(reminders: seq<Reminder>, vehicleId: Id, filter: Option<ReminderFilter>): (r: seq<Reminder>)
    ensures forall x :: multiset(r)[x] == if x.vehicleId == vehicleId && Admits(filter, x) then multiset(reminders)[x] else 0
    ensures SortedBy(r, OrderFor(filter))
  {
    Sort(Filter(reminders, Matching(vehicleId, filter)), OrderFor(filter))
  }

  /** `findByVehicle`: the vehicle's reminders that pass the filter, in
      the filter's sort order, paged when both page and limit are given. */
  function FindByVehicle(reminders: seq<Reminder>, vehicleId: Id, options: FindOptions): (r: seq<Reminder>)
    requires ValidOptions(options)
    ensures forall k :: 0 <= k < |r| ==> r[k] in reminders && r[k].vehicleId == vehicleId && Admits(options.filter, r[k])
    ensures SortedBy(r, OrderFor(options.filter))
    ensures options.page.None? || options.limit.None? ==>
      forall x :: multiset(r)[x] == if x.vehicleId == vehicleId && Admits(options.filter, x) then multiset(reminders)[x] else 0
    ensures options.page.Some? && options.limit.Some? ==>
      |r| == (if CalculateSkip(options.page.value, options.limit.value) >= |SortedMatching(reminders, vehicleId, options.filter)| then 0 else Min(options.limit.value, |SortedMatching(reminders, vehicleId, options.filter)| - CalculateSkip(options.page.value, options.limit.value))) &&
      forall k :: 0 <= k < |r| ==>
        (CalculateSkip(options.page.value, options.limit.value) + k < |SortedMatching(reminders, vehicleId, options.filter)| &&
         r[k] == SortedMatching(reminders, vehicleId, options.filter)[CalculateSkip(options.page.value, options.limit.value) + k])
  {
    var all := SortedMatching(reminders, vehicleId, options.filter);
    PagingKeepsOrder(all, options.page, options.limit, OrderFor(options.filter));
    var r := ApplyPaging(all, options.page, options.limit);
    forall k | 0 <= k < |r| ensures r[k] in reminders && r[k].vehicleId == vehicleId && Admits(options.filter, r[k]) {
      assert multiset(all)[r[k]] > 0;
    }
    r
  }

  /** What the filter keeps: ACTIVE only open reminders, COMPLETED only
      completed ones; ALL or no filter, unpaged, keeps every reminder of the
      vehicle whatever its completion. */
  lemma {:induction false} FilterSelects(reminders: seq<Reminder>, vehicleId: Id, options: FindOptions, k: int)
    requires ValidOptions(options)
    requires 0 <= k < |FindByVehicle(reminders, vehicleId, options)|
    ensures options.filter == Some(Active) ==> !FindByVehicle(reminders, vehicleId, options)[k].isCompleted
    ensures options.filter == Some(Completed) ==> FindByVehicle(reminders, vehicleId, options)[k].isCompleted
  {
    var r := FindByVehicle(reminders, vehicleId, options);
    assert Admits(options.filter, r[k]);
  }

  /** Without a completion filter the unpaged list holds exactly the vehicle's reminders. */
  lemma AllKeepsEveryReminder(reminders: seq<Reminder>, vehicleId: Id, filter: Option<ReminderFilter>)
    requires filter.None? || filter == Some(All)
    ensures forall x ::
      multiset(FindByVehicle(reminders, vehicleId, FindOptions(None, None, filter)))[x] == (if x.vehicleId == vehicleId then multiset(reminders)[x] else 0)
  {
  }

  /** The order of the result read out: active reminders come before
      completed ones; within each group the newest created comes first, or
      under COMPLETED the most recently completed. */
  lemma {:induction false} QueryOrder(reminders: seq<Reminder>, vehicleId: Id, options: FindOptions, i: int, j: int)
    requires ValidOptions(options)
    requires 0 <= i < j < |FindByVehicle(reminders, vehicleId, options)|
    ensures var r := FindByVehicle(reminders, vehicleId, options);
      && (r[i].isCompleted ==> r[j].isCompleted)
      && (options.filter == Some(Completed) && r[i].isCompleted == r[j].isCompleted ==>
            CompletedNoEarlier(r[i].completedAt, r[j].completedAt))
      && (options.filter != Some(Completed) && r[i].isCompleted == r[j].isCompleted ==>
            r[i].createdAt >= r[j].createdAt)
  {
    var r := FindByVehicle(reminders, vehicleId, options);
    assert OrderFor(options.filter)(r[i], r[j]);
  }

  /** Index of the first reminder with that id and that vehicle. */
  function IndexOf(reminders: seq<Reminder>, vehicleId: Id, reminderId: Id): (r: Option<nat>)
    ensures r.Some? ==> r.value < |reminders| && reminders[r.value].id == reminderId && reminders[r.value].vehicleId == vehicleId
    ensures r.None? ==> forall k :: 0 <= k < |reminders| ==> !(reminders[k].id == reminderId && reminders[k].vehicleId == vehicleId)
  {
    FindFirst(reminders, (x: Reminder) => x.id == reminderId && x.vehicleId == vehicleId)
  }

  /** `findByVehicleAndId`: a reminder is returned only when both its id and its vehicle match. */
  function FindByVehicleAndId(reminders: seq<Reminder>, vehicleId: Id, reminderId: Id): (r: Option<Reminder>)
    ensures r.Some? ==> r.value in reminders && r.value.id == reminderId && r.value.vehicleId == vehicleId
    ensures r.None? <==> !exists x :: x in reminders && x.id == reminderId && x.vehicleId == vehicleId
  {
    match IndexOf(reminders, vehicleId, reminderId)
    case None => None
    case Some(i) => Some(reminders[i])
  }

  /** `countByVehicle`: `countDocuments` on the same query `findByVehicle` builds. */
  function CountByVehicle(reminders: seq<Reminder>, vehicleId: Id, filter: Option<ReminderFilter>): nat {
    Count(reminders, Matching(vehicleId, filter))
  }

  /** The count agrees with the filter: it is the length of the unpaged list
      `findByVehicle` returns under the same filter. */
  lemma CountMatchesFind(reminders: seq<Reminder>, vehicleId: Id, filter: Option<ReminderFilter>)
    ensures CountByVehicle(reminders, vehicleId, filter) == |FindByVehicle(reminders, vehicleId, FindOptions(None, None, filter))|
  {
    var filtered := Filter(reminders, Matching(vehicleId, filter));
    FilterHasCount(reminders, Matching(vehicleId, filter));
    var sorted := Sort(filtered, OrderFor(filter));
    assert |sorted| == |multiset(sorted)| == |multiset(filtered)|;
  }

  /** The string the schema's `type` enum stores. */
  function TypeName(kind: ReminderType): (name: string)
    ensures kind == ByDate ==> name == "date"
    ensures kind == ByMileage ==> name == "mileage"
  {
    if kind == ByDate then "date" else "mileage"
  }

  /** Every key a stored reminder document can have. */
  const DocumentKeys: set<string> :=
    {"_id", "id", "vehicleId", "title", "type", "isCompleted", "createdAt", "__v",
     "dueDate", "dueMileage", "notes", "completedAt"}

  /** The raw document, with the virtual `id`; undefined optional fields are absent. */
  function ToDocument(r: Reminder, version: nat): (d: Json.Document)
    ensures "_id" in d && d["_id"] == Json.ObjectId(r.id)
    ensures "__v" in d && d["__v"] == Json.Num(version)
    ensures "id" in d && d["id"] == Json.HexString(r.id)
    ensures "vehicleId" in d && d["vehicleId"] == Json.ObjectId(r.vehicleId)
  {
    var base := map[
      "_id" := Json.ObjectId(r.id),
      "id" := Json.HexString(r.id),
      "vehicleId" := Json.ObjectId(r.vehicleId),
      "title" := Json.Str(r.title),
      "type" := Json.Str(TypeName(r.kind)),
      "isCompleted" := Json.Bool(r.isCompleted),
      "createdAt" := Json.Date(r.createdAt),
      "__v" := Json.Num(version)];
    var d1 := if r.dueDate.Some? then base["dueDate" := Json.Date(r.dueDate.value)] else base;
    var d2 := if r.dueMileage.Some? then d1["dueMileage" := Json.Num(r.dueMileage.value)] else d1;
    var d3 := if r.notes.Some? then d2["notes" := Json.Str(r.notes.value)] else d2;
    if r.completedAt.Some? then d3["completedAt" := Json.Date(r.completedAt.value)] else d3
  }

  /** The stored fields are kept with the reminder's values; a set completion
      time is stored as that date. */
  lemma ToDocumentFields(r: Reminder, version: nat)
    ensures "title" in ToDocument(r, version) && ToDocument(r, version)["title"] == Json.Str(r.title)
    ensures "type" in ToDocument(r, version) && ToDocument(r, version)["type"] == Json.Str(TypeName(r.kind))
    ensures "createdAt" in ToDocument(r, version) && ToDocument(r, version)["createdAt"] == Json.Date(r.createdAt)
    ensures "isCompleted" in ToDocument(r, version) && ToDocument(r, version)["isCompleted"] == Json.Bool(r.isCompleted)
    ensures r.completedAt.Some? ==> "completedAt" in ToDocument(r, version) && ToDocument(r, version)["completedAt"] == Json.Date(r.completedAt.value)
  {
  }

  /** An optional field is stored exactly when it is defined. */
  lemma ToDocumentOptionalKeys(r: Reminder, version: nat)
    ensures "dueDate" in ToDocument(r, version) <==> r.dueDate.Some?
    ensures "dueMileage" in ToDocument(r, version) <==> r.dueMileage.Some?
    ensures "completedAt" in ToDocument(r, version) <==> r.completedAt.Some?
    ensures "notes" in ToDocument(r, version) <==> r.notes.Some?
  {
  }

  /** A defined optional field is stored with its value. */
  lemma ToDocumentOptionalValues(r: Reminder, version: nat)
    ensures r.dueDate.Some? ==> "dueDate" in ToDocument(r, version) && ToDocument(r, version)["dueDate"] == Json.Date(r.dueDate.value)
    ensures r.dueMileage.Some? ==> "dueMileage" in ToDocument(r, version) && ToDocument(r, version)["dueMileage"] == Json.Num(r.dueMileage.value)
    ensures r.notes.Some? ==> "notes" in ToDocument(r, version) && ToDocument(r, version)["notes"] == Json.Str(r.notes.value)
  {
  }

  /** The document has no key outside the schema's fields, `_id`, `__v` and `id`. */
  lemma ToDocumentKeys(r: Reminder, version: nat)
    ensures forall k :: k in ToDocument(r, version) ==> k in DocumentKeys
  {
  }

  /** `toJSON`: drops `_id` and `__v` and keeps every other key of the
      document with its value; an optional field appears exactly when it is
      defined. */
  function ToJson(r: Reminder, version: nat): (j: Json.Document)
    ensures forall k :: k in j <==> k in ToDocument(r, version) && k !in Json.InternalKeys
    ensures forall k :: k in j ==> j[k] == ToDocument(r, version)[k]
    ensures forall k :: k in j ==> k in DocumentKeys
    ensures "_id" !in j && "__v" !in j
    ensures "dueDate" in j <==> r.dueDate.Some?
    ensures "dueMileage" in j <==> r.dueMileage.Some?
    ensures "completedAt" in j <==> r.completedAt.Some?
    ensures "notes" in j <==> r.notes.Some?
  {
    var d := ToDocument(r, version);
    ToDocumentOptionalKeys(r, version);
    ToDocumentKeys(r, version);
    Json.Transform(d, {})
  }

  /** The JSON form holds the virtual id and every stored field with its value. */
  lemma ToJsonFields(r: Reminder, version: nat)
    ensures "id" in ToJson(r, version) && ToJson(r, version)["id"] == Json.HexString(r.id)
    ensures "vehicleId" in ToJson(r, version) && ToJson(r, version)["vehicleId"] == Json.ObjectId(r.vehicleId)
    ensures "title" in ToJson(r, version) && ToJson(r, version)["title"] == Json.Str(r.title)
    ensures "type" in ToJson(r, version) && ToJson(r, version)["type"] == Json.Str(TypeName(r.kind))
    ensures "createdAt" in ToJson(r, version) && ToJson(r, version)["createdAt"] == Json.Date(r.createdAt)
    ensures "isCompleted" in ToJson(r, version) && ToJson(r, version)["isCompleted"] == Json.Bool(r.isCompleted)
    ensures r.dueDate.Some? ==> ToJson(r, version)["dueDate"] == Json.Date(r.dueDate.value)
    ensures r.dueMileage.Some? ==> ToJson(r, version)["dueMileage"] == Json.Num(r.dueMileage.value)
    ensures r.notes.Some? ==> ToJson(r, version)["notes"] == Json.Str(r.notes.value)
    ensures r.completedAt.Some? ==> ToJson(r, version)["completedAt"] == Json.Date(r.completedAt.value)
  {
    ToDocumentFields(r, version);
    ToDocumentOptionalValues(r, version);
  }
}
