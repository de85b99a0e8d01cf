/** The database the services work on: one collection per model, in
    insertion order, and the source of fresh ObjectIds. The validity
    predicate gathers what the schemas and the unique email index
    guarantee for every stored document. */
module Store {
  import opened Common
  import UserModel
  import VehicleModel
  import FuelLogModel
  import ServiceLogModel
  import ReminderModel
  import TokenList
  import Sequences

  /** Stored users: schema-valid, lower-case and unique emails, distinct
      ids below the id counter, at most five refresh tokens each. */
  ghost predicate UsersValid(users: seq<UserModel.User>, nextId: Id) {
    && (forall k :: 0 <= k < |users| ==> UserValid(users[k], nextId))
    && (forall i, j :: 0 <= i < j < |users| ==> users[i].id != users[j].id && users[i].email != users[j].email)
  }

  /** One stored user: id below the counter, schema-valid, lower-case
      email, at most five refresh tokens. */
  ghost predicate UserValid(u: UserModel.User, nextId: Id) {
    && u.id < nextId
    && UserModel.SatisfiesSchema(u)
    && UserModel.Lower(u.email) == u.email
    && |u.refreshTokens| <= TokenList.MaxRefreshTokens
  }

  ghost predicate VehiclesValid(vehicles: seq<VehicleModel.Vehicle>, nextId: Id, maxYear: int) {
    && (forall k :: 0 <= k < |vehicles| ==> vehicles[k].id < nextId && VehicleModel.SatisfiesSchema(vehicles[k], maxYear))
    && (forall i, j :: 0 <= i < j < |vehicles| ==> vehicles[i].id != vehicles[j].id)
  }

  ghost predicate FuelLogsValid(logs: seq<FuelLogModel.FuelLog>, nextId: Id) {
    && (forall k :: 0 <= k < |logs| ==> logs[k].id < nextId && FuelLogModel.SatisfiesSchema(logs[k]))
    && (forall i, j :: 0 <= i < j < |logs| ==> logs[i].id != logs[j].id)
  }

  ghost predicate ServiceLogsValid(logs: seq<ServiceLogModel.ServiceLog>, nextId: Id) {
    && (forall k :: 0 <= k < |logs| ==> logs[k].id < nextId && ServiceLogModel.SatisfiesSchema(logs[k]))
    && (forall i, j :: 0 <= i < j < |logs| ==> logs[i].id != logs[j].id)
  }

  /** Stored reminders also keep `completedAt` set exactly when completed. */
  ghost predicate RemindersValid(reminders: seq<ReminderModel.Reminder>, nextId: Id) {
    && (forall k :: 0 <= k < |reminders| ==>
          && reminders[k].id < nextId
          && ReminderModel.SatisfiesSchema(reminders[k])
          && ReminderModel.CompletionConsistent(reminders[k]))
    && (forall i, j :: 0 <= i < j < |reminders| ==> reminders[i].id != reminders[j].id)
  }

  /** Replacing one user's token list by one of at most five tokens keeps
      the users valid. */
  lemma SetTokensKeepsUsersValid(users: seq<UserModel.User>, nextId: Id, i: nat, tokens: seq<string>)
    requires UsersValid(users, nextId) && i < |users|
    requires |tokens| <= TokenList.MaxRefreshTokens
    ensures UsersValid(users[i := users[i].(refreshTokens := tokens)], nextId)
  {
    var users' := users[i := users[i].(refreshTokens := tokens)];
    forall k | 0 <= k < |users'|
      ensures UserValid(users'[k], nextId)
    {
      if k == i {
        assert UserValid(users[i], nextId);
        assert users'[k] == users[i].(refreshTokens := tokens);
      }
    }
    forall a, b | 0 <= a < b < |users'|
      ensures users'[a].id != users'[b].id && users'[a].email != users'[b].email
    {
      assert users'[a].id == users[a].id && users'[a].email == users[a].email;
      assert users'[b].id == users[b].id && users'[b].email == users[b].email;
    }
  }

  /** Appending a valid user with the next id and an unused email keeps the
      users valid once the counter moves past that id. */
  lemma AppendKeepsUsersValid(users: seq<UserModel.User>, nextId: Id, u: UserModel.User)
    requires UsersValid(users, nextId)
    requires u.id == nextId && UserModel.SatisfiesSchema(u) && UserModel.Lower(u.email) == u.email
    requires |u.refreshTokens| <= TokenList.MaxRefreshTokens
    requires forall k :: 0 <= k < |users| ==> users[k].email != u.email
    ensures UsersValid(users + [u], nextId + 1)
  {
  }

  /** Removing one vehicle keeps the vehicles valid, and with ids distinct
      no vehicle with the removed id is left. */
  lemma RemoveKeepsVehiclesValid(vehicles: seq<VehicleModel.Vehicle>, nextId: Id, maxYear: int, i: nat)
    requires VehiclesValid(vehicles, nextId, maxYear) && i < |vehicles|
    ensures VehiclesValid(Sequences.RemoveAt(vehicles, i), nextId, maxYear)
    ensures forall v :: v in Sequences.RemoveAt(vehicles, i) ==> v.id != vehicles[i].id
  {
    var r := Sequences.RemoveAt(vehicles, i);
    forall a, b | 0 <= a < b < |r| ensures r[a].id != r[b].id {
      var a', b' := if a < i then a else a + 1, if b < i then b else b + 1;
      assert r[a] == vehicles[a'] && r[b] == vehicles[b'];
    }
    forall v | v in r ensures v.id != vehicles[i].id {
      var k :| 0 <= k < |r| && r[k] == v;
      assert r[k] == vehicles[if k < i then k else k + 1];
    }
  }

  lemma RemoveKeepsFuelLogsValid(logs: seq<FuelLogModel.FuelLog>, nextId: Id, i: nat)
    requires FuelLogsValid(logs, nextId) && i < |logs|
    ensures FuelLogsValid(Sequences.RemoveAt(logs, i), nextId)
    ensures forall l :: l in Sequences.RemoveAt(logs, i) ==> l.id != logs[i].id
  {
    var r := Sequences.RemoveAt(logs, i);
    forall a, b | 0 <= a < b < |r| ensures r[a].id != r[b].id {
      var a', b' := if a < i then a else a + 1, if b < i then b else b + 1;
      assert r[a] == logs[a'] && r[b] == logs[b'];
    }
    forall l | l in r ensures l.id != logs[i].id {
      var k :| 0 <= k < |r| && r[k] == l;
      assert r[k] == logs[if k < i then k else k + 1];
    }
  }

  lemma RemoveKeepsServiceLogsValid(logs: seq<ServiceLogModel.ServiceLog>, nextId: Id, i: nat)
    requires ServiceLogsValid(logs, nextId) && i < |logs|
    ensures ServiceLogsValid(Sequences.RemoveAt(logs, i), nextId)
    ensures forall l :: l in Sequences.RemoveAt(logs, i) ==> l.id != logs[i].id
  {
    var r := Sequences.RemoveAt(logs, i);
    forall a, b | 0 <= a < b < |r| ensures r[a].id != r[b].id {
      var a', b' := if a < i then a else a + 1, if b < i then b else b + 1;
      assert r[a] == logs[a'] && r[b] == logs[b'];
    }
    forall l | l in r ensures l.id != logs[i].id {
      var k :| 0 <= k < |r| && r[k] == l;
      assert r[k] == logs[if k < i then k else k + 1];
    }
  }

  lemma RemoveKeepsRemindersValid(reminders: seq<ReminderModel.Reminder>, nextId: Id, i: nat)
    requires RemindersValid(reminders, nextId) && i < |reminders|
    ensures RemindersValid(Sequences.RemoveAt(reminders, i), nextId)
    ensures forall x :: x in Sequences.RemoveAt(reminders, i) ==> x.id != reminders[i].id
  {
    var r := Sequences.RemoveAt(reminders, i);
    forall a, b | 0 <= a < b < |r| ensures r[a].id != r[b].id {
      var a', b' := if a < i then a else a + 1, if b < i then b else b + 1;
      assert r[a] == reminders[a'] && r[b] == reminders[b'];
    }
    forall x | x in r ensures x.id != reminders[i].id {
      var k :| 0 <= k < |r| && r[k] == x;
      assert r[k] == reminders[if k < i then k else k + 1];
    }
  }

  /** Replacing one document by a valid one with the same id keeps the
      collection valid. */
  lemma SetKeepsVehiclesValid(s: seq<VehicleModel.Vehicle>, nextId: Id, maxYear: int, i: nat, x: VehicleModel.Vehicle)
    requires VehiclesValid(s, nextId, maxYear) && i < |s|
    requires x.id == s[i].id && VehicleModel.SatisfiesSchema(x, maxYear)
    ensures VehiclesValid(s[i := x], nextId, maxYear)
  {
    assert forall k :: 0 <= k < |s| ==> s[i := x][k].id == s[k].id;
  }

  lemma SetKeepsFuelLogsValid(s: seq<FuelLogModel.FuelLog>, nextId: Id, i: nat, x: FuelLogModel.FuelLog)
    requires FuelLogsValid(s, nextId) && i < |s|
    requires x.id == s[i].id && FuelLogModel.SatisfiesSchema(x)
    ensures FuelLogsValid(s[i := x], nextId)
  {
    assert forall k :: 0 <= k < |s| ==> s[i := x][k].id == s[k].id;
  }

  lemma SetKeepsServiceLogsValid(s: seq<ServiceLogModel.ServiceLog>, nextId: Id, i: nat, x: ServiceLogModel.ServiceLog)
    requires ServiceLogsValid(s, nextId) && i < |s|
    requires x.id == s[i].id && ServiceLogModel.SatisfiesSchema(x)
    ensures ServiceLogsValid(s[i := x], nextId)
  {
    assert forall k :: 0 <= k < |s| ==> s[i := x][k].id == s[k].id;
  }

  lemma SetKeepsRemindersValid(s: seq<ReminderModel.Reminder>, nextId: Id, i: nat, x: ReminderModel.Reminder)
    requires RemindersValid(s, nextId) && i < |s|
    requires x.id == s[i].id && ReminderModel.SatisfiesSchema(x) && ReminderModel.CompletionConsistent(x)
    ensures RemindersValid(s[i := x], nextId)
  {
    assert forall k :: 0 <= k < |s| ==> s[i := x][k].id == s[k].id;
  }

  class Database {
    var users: seq<UserModel.User>
    var vehicles: seq<VehicleModel.Vehicle>
    var fuelLogs: seq<FuelLogModel.FuelLog>
    var serviceLogs: seq<ServiceLogModel.ServiceLog>
    var reminders: seq<ReminderModel.Reminder>
    /** The next ObjectId to hand out; every stored id is below it. */
    var nextId: Id
    /** The vehicle schema's `max` on year: the current year plus one, read
        once when the schema is defined. */
    const maxYear: int

    ghost predicate Valid()
      reads this
    {
      && UsersValid(users, nextId)
      && VehiclesValid(vehicles, nextId, maxYear)
      && FuelLogsValid(fuelLogs, nextId)
      && ServiceLogsValid(serviceLogs, nextId)
      && RemindersValid(reminders, nextId)
    }

    constructor (maxYear: int)
      ensures Valid()
      ensures users == [] && vehicles == [] && fuelLogs == [] && serviceLogs == [] && reminders == []
      ensures this.maxYear == maxYear
    {
      users, vehicles, fuelLogs, serviceLogs, reminders := [], [], [], [], [];
      nextId := 0;
      this.maxYear := maxYear;
    }

    /** A fresh ObjectId, distinct from every stored id. */
    method NewId() returns (id: Id)
      requires Valid()
      modifies this`nextId
      ensures id == old(nextId) && nextId == id + 1
      ensures Valid()
    {
      id := nextId;
      nextId := nextId + 1;
    }
  }
}
