# moto-card core, modelled in Dafny

This project models the core of the moto-card vehicle-maintenance API:

- **Refresh-token list.** Each user holds a list of live refresh tokens.
  - Registration starts the list with one token.
  - Login pushes a token and keeps the newest five.
  - Refresh swaps the presented token for a new one.
  - Logout retires one token.
- **Pagination.** Query parameters are clamped into page and limit. From those come the skip offset, the page count, and the pages that filter, sort and slice.
- **Reminder lifecycle.** Creation checks depend on the reminder's type. Completing and reopening are guarded and fail with 400. A partial update sets, keeps or clears `completedAt`. Lists are filtered, sorted and paged, and the count agrees with the filter.
- **Ownership-scoped stores.** These cover vehicles, fuel logs, service logs and reminders.
  - Every access is gated: the user owns the vehicle, and the record belongs to that vehicle.
  - A failed gate answers 404, exactly as a missing record does.
  - Updates patch only the fields given.
  - A delete removes one record and cascades nothing.
- **User lookup, projection and registration checks.** Email lookup ignores case, and the JSON form drops the secrets. Registration checks presence, then password length, then the email pattern.

## Layout

| file | module | what it holds |
|---|---|---|
| common.dfy | `Common` | ids, times, `Option`, `Result`, the error type |
| sequences.dfy | `Sequences` | the Mongo query steps on an ordered collection: first match, filter, count, stable sort, slice, remove |
| pagination.dfy | `Pagination` | `getPaginationParams`, `calculateSkip`, `buildPaginationMeta`, and the skip/limit step of the statics |
| email_patterns.dfy | `EmailPatterns` | the two `^X+@X+\.X+$` patterns and their decision procedure |
| json.dfy | `Json` | documents as maps, and the shared `toJSON` transform |
| user_model.dfy, vehicle_model.dfy, fuel_log_model.dfy, service_log_model.dfy, reminder_model.dfy | `UserModel` … `ReminderModel` | each document type, its schema bounds and its read-only statics |
| token_list.dfy | `TokenList` | `indexOf`, `splice`, `push` and `slice(-5)` on a token list, and what they guarantee |
| store.dfy | `Store` | `class Database`: the collections and the ObjectId counter, plus `Valid()`, which holds everything the schemas and the unique email index guarantee |
| auth_service.dfy, auth_controller.dfy | `AuthService`, `AuthController` | the authentication service (imperative, over `Database`) and the controller's guards |
| vehicle_service.dfy, fuel_log_service.dfy, service_log_service.dfy, reminder_service.dfy | `…Service` | the lookups as functions, and create/update/delete/mark as methods on `Database` |

Some operations change state: create, update, delete, mark, register, login, refresh and logout.

- Each of these is a method on the `Database` object.
- Each method's `modifies` clause names only the collection it touches, so the other collections are unchanged by construction. `DeleteVehicle` also says so explicitly.
- Each method preserves `Valid()`.
- Each method states its new state through a pure function, and the lemmas are stated about those functions:
  - `TokenList.PushCapped`, `TokenList.Rotate` and `TokenList.RemoveFirst`;
  - the `ApplyPatch` of each service;
  - `ReminderService.Complete` and `ReminderService.Reopen`.

Some parts of the source are foreign code. They enter the model as parameters:

| source | parameter |
|---|---|
| `bcrypt.hash` | the resulting `passwordHash` |
| `bcrypt.compare` | `matches` |
| `generateTokens` | the `issued` tokens |
| `verifyRefreshToken` | `verify`, which gives None where the source throws |
| `new Date()` / `Date.now` | `now` |
| the vehicle schema's current-year bound | the `Database.maxYear` constant |

A Mongoose validation error is `ValidationFailed`. A thrown token verification is `TokenRejected`. The HTTP status of these two is set in the error middleware, which is not part of this model.

Three points where the model follows the code:

- **Mark operations fail with 400.** The two completion toggles fail with 400 ("Reminder is already completed" / "Reminder is not completed"), not 409. The model follows the code.
- **Rotation never evicts.** Under the five-token invariant, the `slice(-5)` in `refreshTokens` never removes anything. `TokenList.RotateExact` proves this.
- **Update skips the create checks.** `updateReminder` does not repeat the type/due-field checks of `createReminder`. `ReminderService.UpdateMayDropDueField` shows a mileage reminder turned into a date reminder with no due date. The model keeps this behaviour because it is what the code does.

## Model

| member | source | states |
|---|---|---|
| Pagination.OrDefault | api/src/utils/pagination.ts:19-20 | `parseInt(x) \|\| d`: the default when the value is missing, unparseable or 0; otherwise the parsed value |
| Pagination.GetPaginationParams | api/src/utils/pagination.ts:18-24 | page is at least 1, limit is in [1, 100], and skip is `(page-1)*limit` and not negative |
| Pagination.PageClamp | api/src/utils/pagination.ts:19 | a missing, unparseable, zero or negative page becomes 1; any other page is kept |
| Pagination.LimitClamp | api/src/utils/pagination.ts:20 | a missing, unparseable or zero limit becomes 20, a negative one becomes 1, one above 100 becomes 100; any other is kept |
| Pagination.CalculateSkip | api/src/utils/pagination.ts:39-41 | skip is not negative for page ≥ 1, and page p ends at `page*limit` |
| Pagination.NextPageFollows | api/src/utils/pagination.ts:39-41 | page p+1 starts exactly where page p ends |
| Pagination.CeilDiv | api/src/utils/pagination.ts:33 | `Math.ceil(total/limit)` is the least q with `q*limit >= total` |
| Pagination.BuildPaginationMeta | api/src/utils/pagination.ts:29-34 | page, limit and total are echoed; totalPages is the integer ceiling; a total of 0 gives 0 pages |
| Pagination.PageInRange | api/src/utils/pagination.ts:29-41 | a page starts inside the list exactly when its number is at most totalPages |
| Pagination.ApplyPaging | api/src/models/FuelLog.ts:71-74 | without both page and limit the list is unchanged; with both, the result has length `min(limit, total-skip)` (0 past the end) and its k-th item is item `skip+k` |
| Pagination.PagingKeepsOrder | api/src/models/FuelLog.ts:69-74 | slicing a sorted list keeps it sorted and keeps only its items |
| Pagination.PageMatchesMeta | api/src/services/serviceLogService.ts:53-61 | the page returned is non-empty exactly when the page number is at most the metadata's totalPages |
| EmailPatterns.TestDecides | api/src/controllers/authController.ts:20-21 | the regex test accepts exactly the language of `^X+@X+\.X+$`; equivalently, every character is in the class, an '@' stands at some i ≥ 1, and a '.' stands at some j with i+2 ≤ j ≤ \|s\|-2 |
| EmailPatterns.SplitShape | api/src/controllers/authController.ts:20 | a string of the form `a@b.c` with non-empty runs has the positional shape |
| EmailPatterns.ShapeSplit | api/src/controllers/authController.ts:20 | a string with the positional shape splits into `a@b.c` with non-empty runs |
| EmailPatterns.GuardImpliesSchema | api/src/models/User.ts:26 | whatever `^\S+@\S+\.\S+$` accepts, `^.+@.+\..+$` accepts too |
| Json.Transform | api/src/models/User.ts:59-70 | the output keys are the document's keys minus `_id`, `__v` and the hidden ones; the values are unchanged |
| UserModel.LowerChar | api/src/models/User.ts:50 | `toLowerCase` on one character: ASCII capitals move to lower case, everything else is kept |
| UserModel.Lower | api/src/models/User.ts:50 | `toLowerCase` keeps the length and folds each character |
| UserModel.LowerIdempotent | api/src/models/User.ts:24 | lower-casing a lower-cased email changes nothing |
| UserModel.NewUser | api/src/models/User.ts:33-40 | a created user has the given email and hash, createdAt is now, and refreshTokens is empty |
| UserModel.FindByStoredEmail | api/src/models/User.ts:50 | `findOne({email})` gives the first user with exactly that stored email, or none when no user has it |
| UserModel.FindByEmail | api/src/models/User.ts:49-51 | the lookup is made with the lower-cased argument |
| UserModel.FindById | api/src/services/authService.ts:100 | `findById` gives the user with that id, or none when no user has it |
| UserModel.FindByEmailIgnoresCase | api/src/models/User.ts:49-51 | when stored emails are lower case, a user is found exactly when some stored email equals the argument up to case |
| UserModel.ToJson | api/src/models/User.ts:54-70 | the projection has exactly the keys id, email and createdAt; passwordHash, refreshTokens, `_id` and `__v` never appear |
| VehicleModel.FindByUser | api/src/models/Vehicle.ts:69-71 | exactly the user's vehicles (as a multiset), newest first; `getAllVehicles` returns this list |
| VehicleModel.IndexOfOwned | api/src/models/Vehicle.ts:73-75 | the first vehicle matching both `_id` and `userId`, or none when no vehicle matches both |
| VehicleModel.FindByUserAndId | api/src/models/Vehicle.ts:73-75 | a vehicle is returned only when both its id and its owner match, and none is returned exactly when no such vehicle exists |
| VehicleModel.VerifyVehicleOwnership | api/src/services/reminderService.ts:32-37 | passes exactly when the user owns the vehicle; otherwise 404 "Vehicle not found or access denied", the same for a missing vehicle and another user's vehicle |
| FuelLogModel.SortedOfVehicle | api/src/models/FuelLog.ts:68-69 | exactly the vehicle's logs, latest date first |
| FuelLogModel.FindByVehicle | api/src/models/FuelLog.ts:68-76 | only that vehicle's logs, latest first; unpaged it returns all of them; paged it returns exactly min(limit, n − skip) items (none when skip ≥ n, n the count of matches), namely items skip, skip+1, … of the sorted list |
| FuelLogModel.IndexOf | api/src/models/FuelLog.ts:79-81 | the first log matching both `_id` and `vehicleId`, or none when no log matches both |
| FuelLogModel.FindByVehicleAndId | api/src/models/FuelLog.ts:79-81 | a log is returned only when both its id and its vehicle match, and none is returned exactly when no such log exists |
| FuelLogModel.CountMatchesFind | api/src/models/FuelLog.ts:83-85 | `countByVehicle` equals the length of the unpaged `findByVehicle` |
| ServiceLogModel.SortedOfVehicle | api/src/models/ServiceLog.ts:86-90 | exactly the vehicle's logs, latest date first |
| ServiceLogModel.FindByVehicle | api/src/models/ServiceLog.ts:86-98 | only that vehicle's logs, latest first; unpaged it returns all of them; paged it returns exactly min(limit, n − skip) items (none when skip ≥ n, n the count of matches), namely items skip, skip+1, … of the sorted list |
| ServiceLogModel.IndexOf | api/src/models/ServiceLog.ts:100-105 | the first log matching both `_id` and `vehicleId`, or none when no log matches both |
| ServiceLogModel.FindByVehicleAndId | api/src/models/ServiceLog.ts:100-105 | a log is returned only when both its id and its vehicle match, and none is returned exactly when no such log exists |
| ServiceLogModel.CountMatchesFind | api/src/models/ServiceLog.ts:107-109 | `countByVehicle` equals the length of the unpaged `findByVehicle` |
| ReminderModel.ParseFilter | api/src/controllers/reminderController.ts:26-29 | 'active' and 'completed' select those filters; anything else, or nothing, gives ALL |
| ReminderModel.OrderFor | api/src/models/Reminder.ts:125-131 | the sort order (completion time under COMPLETED, creation time otherwise) is a total preorder |
| ReminderModel.SortedMatching | api/src/models/Reminder.ts:106-133 | exactly the vehicle's reminders that pass the filter, in the filter's order |
| ReminderModel.FindByVehicle | api/src/models/Reminder.ts:102-142 | only the vehicle's reminders that pass the filter, sorted; unpaged it returns all of them; paged it returns exactly min(limit, n − skip) items (none when skip ≥ n, n the count of matches), namely items skip, skip+1, … of the sorted matches |
| ReminderModel.FilterSelects | api/src/models/Reminder.ts:109-122 | ACTIVE returns only open reminders; COMPLETED returns only completed ones |
| ReminderModel.AllKeepsEveryReminder | api/src/models/Reminder.ts:117-121 | with ALL or no filter, the unpaged list is every reminder of the vehicle |
| ReminderModel.QueryOrder | api/src/models/Reminder.ts:125-131 | open reminders come before completed ones; within each group the newest created comes first, or under COMPLETED the most recently completed (a missing time sorts last) |
| ReminderModel.IndexOf | api/src/models/Reminder.ts:144-149 | the first reminder matching both `_id` and `vehicleId`, or none when no reminder matches both |
| ReminderModel.FindByVehicleAndId | api/src/models/Reminder.ts:144-149 | a reminder is returned only when both its id and its vehicle match, and none is returned exactly when no such reminder exists |
| ReminderModel.CountMatchesFind | api/src/models/Reminder.ts:151-173 | `countByVehicle(v, f)` equals the length of the unpaged `findByVehicle(v, {filter: f})` |
| ReminderModel.ToDocument | api/src/models/Reminder.ts:176-178 | the stored document maps `_id`, `__v`, the virtual id and vehicleId to the reminder's values |
| ReminderModel.ToDocumentFields | api/src/models/Reminder.ts:41-95 | the document maps title, type (its enum string), isCompleted and createdAt to the reminder's values; a set completion time is stored as that date |
| ReminderModel.TypeName | api/src/models/Reminder.ts:4-7 | the date kind is stored as `"date"`, the mileage kind as `"mileage"` |
| ReminderModel.ToDocumentOptionalValues | api/src/models/Reminder.ts:64-90 | a defined dueDate, dueMileage or notes is stored with its value |
| ReminderModel.ToDocumentKeys | api/src/models/Reminder.ts:41-95 | the document has no key beyond the schema's fields, `_id`, `__v` and `id` |
| ReminderModel.ToDocumentOptionalKeys | api/src/models/Reminder.ts:176-189 | dueDate, dueMileage, completedAt and notes are present in the document exactly when they are defined |
| ReminderModel.ToJson | api/src/models/Reminder.ts:181-189 | the keys are exactly the document's keys minus `_id` and `__v`, each with the document's value, all within the schema's keys; an optional field appears exactly when it is defined |
| ReminderModel.ToJsonFields | api/src/models/Reminder.ts:181-189 | the JSON form carries the virtual id, vehicleId, title, type, createdAt and isCompleted, and each defined optional field, with the reminder's values |
| TokenList.IndexOf | api/src/services/authService.ts:106-107 | `indexOf` gives -1 exactly when the token is absent; otherwise it gives its first position |
| TokenList.RemoveFirst | api/src/services/authService.ts:111-112 | `splice(indexOf(t), 1)` removes the first occurrence of a present token; the list is unchanged when the token is absent |
| TokenList.RemoveFirstMultiset | api/src/services/authService.ts:112 | removal takes away exactly one copy of the token and nothing else |
| TokenList.RemoveFirstOnly | api/src/services/authService.ts:111-112 | a token that occurred once is gone after removal |
| TokenList.RemoveFirstIdempotent | api/src/services/authService.ts:146-150 | with at most one copy of the token, a second logout changes nothing |
| TokenList.KeepLast | api/src/services/authService.ts:74-76 | `slice(-5)` keeps the last min(length, 5) entries |
| TokenList.PushCapped | api/src/services/authService.ts:71-76 | after login the list has at most 5 entries, and the new token is last; below 5, nothing is evicted; at 5, exactly the oldest is evicted |
| TokenList.PushCappedIsSuffix | api/src/services/authService.ts:73-76 | the capped list is the newest part of the list with the new token pushed |
| TokenList.LoginsKeepNewestFive | api/src/services/authService.ts:71-76 | after any series of logins the list is the last five of all tokens pushed, in the order they were issued |
| TokenList.Rotate | api/src/services/authService.ts:111-123 | after rotation the list has at most 5 entries, and the issued token is last |
| TokenList.RotateExact | api/src/services/authService.ts:111-123 | with at most 5 tokens, rotation removes one copy of the presented token and appends the issued one, and the length is unchanged; a presented token that occurred once is gone unless it is reissued |
| AuthService.Register | api/src/services/authService.ts:16-41 | it succeeds exactly when the email is free (up to case) and the new user document satisfies the schema; a taken email gives 409, and no user is created; otherwise a user is added with the lower-cased email, and its token list is exactly the issued refresh token; a schema-invalid document is not stored |
| AuthService.Login | api/src/services/authService.ts:52-82 | an unknown email and a wrong password give the same 401 "Invalid credentials", and the list is unchanged; otherwise the token list becomes `PushCapped(old, issued)` |
| AuthService.RefreshTokens | api/src/services/authService.ts:95-129 | a token that does not verify is rejected; a missing user or an unlisted token gives 401 "Invalid refresh token", and nothing changes; otherwise the list becomes `Rotate(old, presented, issued)` |
| AuthService.Logout | api/src/services/authService.ts:137-151 | an unknown user or an unlisted token changes nothing; otherwise only the first occurrence is removed |
| AuthController.RegisterCheck | api/src/controllers/authController.ts:11-23 | the checks run in order, each with its own 400: both fields present, then password length ≥ 6, then the `\S` email pattern; the service is called only when all three pass |
| AuthController.RegisterEmailShape | api/src/controllers/authController.ts:20-23 | an accepted email has no whitespace, an '@' at some i ≥ 1, and a '.' at some j with i+2 ≤ j ≤ \|s\|-2 |
| AuthController.AcceptedEmailFitsSchema | api/src/controllers/authController.ts:20-21 | an accepted email, once lower-cased for storage, matches the user schema's pattern |
| AuthController.LoginCheck | api/src/controllers/authController.ts:39-41 | login checks presence only, with the same 400 |
| AuthController.LoginAcceptsShortPassword | api/src/controllers/authController.ts:39-41 | a 3-character password passes the login check but fails the register check |
| AuthController.RefreshCheck | api/src/controllers/authController.ts:57-59 | a missing or empty token gives 400 "Refresh token is required" |
| AuthController.LogoutCheck | api/src/controllers/authController.ts:76-82 | a missing token gives 400 before a missing user gives 401 |
| VehicleService.GetVehicleById | api/src/services/vehicleService.ts:31-39 | the user's vehicle with that id; otherwise 404 "Vehicle not found" |
| VehicleService.NewVehicle | api/src/services/vehicleService.ts:45-52 | the created vehicle is owned by the caller and holds the given fields |
| VehicleService.ApplyPatch | api/src/services/vehicleService.ts:71-76 | each field given in the patch takes the given value; fields absent from the patch are unchanged; id, owner and createdAt are never changed |
| VehicleService.PatchLaws | api/src/services/vehicleService.ts:72-76 | an empty patch is the identity, and a patch applied twice has the effect of one application |
| VehicleService.CreateVehicle | api/src/services/vehicleService.ts:44-55 | the vehicle is stored exactly when it satisfies the schema (bounded name, make and model; year in [1900, maxYear]; mileage ≥ 0) |
| VehicleService.UpdateVehicle | api/src/services/vehicleService.ts:60-80 | the vehicle is not owned → 404 and nothing changes; otherwise the patched vehicle replaces it, unless the schema rejects the result |
| VehicleService.DeleteVehicle | api/src/services/vehicleService.ts:85-93 | the vehicle is not owned → 404; otherwise exactly that vehicle is removed; users, fuel logs, service logs and reminders are untouched |
| FuelLogService.GetAllFuelLogs | api/src/services/fuelLogService.ts:35-38 | the vehicle is not owned → 404; otherwise exactly its logs, latest first |
| FuelLogService.GetFuelLogById | api/src/services/fuelLogService.ts:43-53 | ownership is checked first; then the log is found exactly when it belongs to the vehicle, and otherwise the answer is 404 "Fuel log not found" |
| FuelLogService.NewFuelLog | api/src/services/fuelLogService.ts:62-69 | the date is the given one, or now when it is absent; the other fields are copied |
| FuelLogService.ApplyPatch | api/src/services/fuelLogService.ts:95-99 | each field given in the patch takes the given value; fields absent from the patch are unchanged; id, vehicle and createdAt are never changed |
| FuelLogService.PatchLaws | api/src/services/fuelLogService.ts:95-99 | an empty patch is the identity, and a patch applied twice has the effect of one application |
| FuelLogService.CreateFuelLog | api/src/services/fuelLogService.ts:58-75 | the vehicle is not owned → 404; otherwise the new log is stored exactly when it satisfies the schema, and a schema failure gives ValidationFailed with nothing stored |
| FuelLogService.UpdateFuelLog | api/src/services/fuelLogService.ts:80-103 | ownership, then 404 when the log is not the vehicle's; otherwise the patched log replaces it; nothing changes on an error |
| FuelLogService.DeleteFuelLog | api/src/services/fuelLogService.ts:108-118 | it succeeds exactly when the caller owns the vehicle and the item is found under it; ownership, then 404; otherwise exactly that log is removed, and no log with its id remains |
| ServiceLogService.GetAllServiceLogs | api/src/services/serviceLogService.ts:45-62 | the vehicle is not owned → 404; otherwise the page is exactly items skip … skip+min(limit, n − skip) − 1 of that vehicle's logs sorted latest first (empty when skip ≥ n), with metadata from the same page and limit and `total = countByVehicle`; the page is non-empty exactly when page ≤ totalPages |
| ServiceLogService.GetServiceLogById | api/src/services/serviceLogService.ts:67-81 | ownership is checked first; then the log is found exactly when it belongs to the vehicle, and otherwise the answer is 404 "Service log not found" |
| ServiceLogService.NewServiceLog | api/src/services/serviceLogService.ts:93-102 | the date is the given one, or now when it is absent; the other fields are copied |
| ServiceLogService.ApplyPatch | api/src/services/serviceLogService.ts:125-131 | each field given in the patch takes the given value; fields absent from the patch are unchanged; id, vehicle and createdAt are never changed |
| ServiceLogService.PatchLaws | api/src/services/serviceLogService.ts:125-131 | an empty patch is the identity, and a patch applied twice has the effect of one application |
| ServiceLogService.CreateServiceLog | api/src/services/serviceLogService.ts:86-105 | the vehicle is not owned → 404; otherwise the new log is stored exactly when it satisfies the schema, and a schema failure gives ValidationFailed with nothing stored |
| ServiceLogService.UpdateServiceLog | api/src/services/serviceLogService.ts:110-135 | ownership, then 404 when the log is not the vehicle's; otherwise the patched log replaces it; nothing changes on an error |
| ServiceLogService.DeleteServiceLog | api/src/services/serviceLogService.ts:140-150 | it succeeds exactly when the caller owns the vehicle and the item is found under it; ownership, then 404; otherwise exactly that log is removed, and no log with its id remains |
| ReminderService.GetAllReminders | api/src/services/reminderService.ts:42-60 | the vehicle is not owned → 404; otherwise the page is exactly items skip … skip+min(limit, n − skip) − 1 of the vehicle's reminders that pass the filter, in the filter's order (empty when skip ≥ n), with metadata whose total is the count under the same filter; the page is non-empty exactly when page ≤ totalPages |
| ReminderService.GetReminderById | api/src/services/reminderService.ts:65-75 | ownership is checked first; then the reminder is found exactly when it belongs to the vehicle, and otherwise the answer is 404 "Reminder not found" |
| ReminderService.CreateCheck | api/src/services/reminderService.ts:87-95 | a date reminder without dueDate, or a mileage reminder without dueMileage, gives its own 400; nothing else fails |
| ReminderService.NewReminder | api/src/services/reminderService.ts:97-105 | a created reminder is open, has no completion time, and copies the given fields |
| ReminderService.ApplyPatch | api/src/services/reminderService.ts:127-141 | each patched field takes the given value; unpatched fields are unchanged; `isCompleted: true` keeps an existing completedAt and stamps now only when none is set; `isCompleted: false` clears it; leaving isCompleted out leaves both alone |
| ReminderService.PatchKeepsCompletionConsistent | api/src/services/reminderService.ts:132-140 | after an update, completedAt is set exactly when the reminder is completed |
| ReminderService.PatchLaws | api/src/services/reminderService.ts:128-141 | an empty patch is the identity; applying the same patch again, even later, changes nothing, and the first completion time stays |
| ReminderService.Complete | api/src/services/reminderService.ts:174-179 | an already completed reminder gives 400 "Reminder is already completed"; otherwise the reminder becomes completed with completedAt = now |
| ReminderService.Reopen | api/src/services/reminderService.ts:197-202 | an open reminder gives 400 "Reminder is not completed"; otherwise the reminder becomes open and completedAt is cleared |
| ReminderService.CompleteThenReopen | api/src/services/reminderService.ts:165-206 | exactly one of the two transitions applies; completing then reopening restores the open reminder |
| ReminderService.TransitionsAreUpdates | api/src/services/reminderService.ts:132-140 | completing equals the update `isCompleted: true` on an open reminder; reopening equals `isCompleted: false` on a completed one |
| ReminderService.CreatedHasDueField | api/src/services/reminderService.ts:87-95 | a reminder that passes the create checks carries the due field its type calls for |
| ReminderService.UpdateMayDropDueField | api/src/services/reminderService.ts:128-129 | switching the type in an update is not re-checked, so a date reminder without a due date can result |
| ReminderService.CreateReminder | api/src/services/reminderService.ts:80-108 | ownership, then the type checks, then the schema: stored exactly when the schema holds, a schema failure gives ValidationFailed with nothing stored; on success an open reminder is appended |
| ReminderService.UpdateReminder | api/src/services/reminderService.ts:113-145 | ownership, then 404 when the reminder is not the vehicle's; otherwise the result is `ApplyPatch(old, patch, now)`, unless the schema rejects it; nothing changes on an error |
| ReminderService.DeleteReminder | api/src/services/reminderService.ts:150-160 | it succeeds exactly when the caller owns the vehicle and the item is found under it; ownership, then 404; otherwise exactly that reminder is removed |
| ReminderService.MarkAsCompleted | api/src/services/reminderService.ts:165-183 | ownership, then 404, then the result is `Complete(old, now)` and is stored on success; a 400 changes nothing |
| ReminderService.MarkAsIncomplete | api/src/services/reminderService.ts:188-206 | ownership, then 404, then the result is `Reopen(old)` and is stored on success; a 400 changes nothing |

## Left out

- I/O, HTTP plumbing, routes and the auth middleware are left out. `req.user` arrives as an optional user id.
- bcrypt, JWT signing and verification, and the wall clock are parameters (see above). Token uniqueness is not assumed: the token lemmas count occurrences instead.
- Mongo persistence is modelled as ordered in-memory sequences, and ObjectIds as a counter.
  - `findOne` and `deleteOne` take the first match.
  - The `Promise.all` pairs are read from one state.
  - Concurrent requests, including the read-modify-write race on `refreshTokens`, are not modelled.
- An ObjectId string that does not parse makes Mongo raise a cast error. Ids here are numbers, so that error is not modelled.
- The `trim: true` setters are not modelled: stored strings are exactly the given ones.
- AuthController.RegisterCheck and the `SatisfiesSchema` predicates (UserModel, VehicleModel, FuelLogModel, ServiceLogModel, ReminderModel): a string's length is its number of Unicode code points. JavaScript's `.length` and Mongoose's `minlength`/`maxlength` count UTF-16 code units, so a string with characters outside the Basic Multilingual Plane is counted shorter here than in the source.
- UserModel.LowerChar: `toLowerCase` is modelled on ASCII letters only. Full Unicode case mapping is not modelled.
- Sequences.Sort: Mongo does not specify the order of documents with equal sort keys. The model sorts stably and states only that the result is sorted and a permutation.
- JavaScript parsing is not modelled: `parseInt` on query strings, `parseFloat` on bodies, and non-string body values. Query values come in as `Option<int>`, with None for NaN. Numeric fields are integers, and no arithmetic is done on them.
- ServiceLogService.GetAllServiceLogs and ReminderService.GetAllReminders require page ≥ 1 and limit ≥ 1. That is what the controller's `getPaginationParams` guarantees. Other values would make the source compute a negative skip or an infinite page count.
- The `express-validator` chains in `api/src/utils/validation.ts` are not part of this model.
- Mongoose schema enums are not checked at run time: the reminder type and filter are datatypes, so no other value can be given.
- The `updatedAt` timestamps are not modelled.
- The toJSON projections of vehicles and logs are left out: they do what `Json.Transform` does with no hidden keys.
- The status codes of `ValidationFailed` and `TokenRejected` are not modelled. They come from the error middleware, which is not part of this model.
