/** The User document: identity, credential and the list of live refresh
    tokens; its schema validators, its email lookup and its JSON form. */
module UserModel {
  import opened Common
  import opened Sequences
  import EmailPatterns
  import Json

  /** The schema's `minlength` on the stored password hash. */
  const MinPasswordHashLength := 6

  datatype User = User(
    id: Id,
    email: string,
    passwordHash: string,
    createdAt: Time,
    refreshTokens: seq<string>)

  /** `toLowerCase` on one character; only ASCII letters are folded here. */
  function LowerChar(c: char): (r: char)
    ensures 'A' <= c <= 'Z' ==> r as int == c as int + 32
    ensures !('A' <= c <= 'Z') ==> r == c
  {
    if 'A' <= c <= 'Z' then (c as int + 32) as char else c
  }

  /** `toLowerCase`: folds each character and keeps the length. */
  function Lower(s: string): (r: string)
    ensures |r| == |s|
    ensures forall k :: 0 <= k < |s| ==> r[k] == LowerChar(s[k])
  {
    if |s| == 0 then "" else [LowerChar(s[0])] + Lower(s[1..])
  }

  /** Folding twice is folding once. */
  lemma LowerIdempotent(s: string)
    ensures Lower(Lower(s)) == Lower(s)
  {
  }

  /** `match: /^.+@.+\..+$/` on the email. */
  predicate SchemaEmail(email: string) {
    EmailPatterns.Test(email, EmailPatterns.NotLineTerminator)
  }

  /** The document validators: email required and matching the pattern,
      password hash required with `minlength` 6. */
  predicate SatisfiesSchema(u: User) {
    && SchemaEmail(u.email)
    && |u.passwordHash| >= MinPasswordHashLength
  }

  /** `User.create({email, passwordHash})` with every other field at its
      schema default: createdAt is now and refreshTokens is empty. */
  function NewUser(id: Id, email: string, passwordHash: string, now: Time): (u: User)
    ensures u.refreshTokens == []
    ensures u.id == id && u.email == email && u.passwordHash == passwordHash && u.createdAt == now
  {
    User(id, email, passwordHash, now, [])
  }

  /** Index of the first user whose stored email equals key. */
  function FindByStoredEmail(users: seq<User>, key: string): (r: Option<nat>)
    ensures r.Some? ==> r.value < |users| && users[r.value].email == key
    ensures r.None? ==> forall k :: 0 <= k < |users| ==> users[k].email != key
  {
    FindFirst(users, (u: User) => u.email == key)
  }

  /** `findByEmail`: looks the lower-cased argument up. */
  function FindByEmail(users: seq<User>, email: string): (r: Option<nat>)
    ensures r.Some? ==> r.value < |users| && users[r.value].email == Lower(email)
    ensures r.None? ==> forall k :: 0 <= k < |users| ==> users[k].email != Lower(email)
  {
    FindByStoredEmail(users, Lower(email))
  }

  /** `findById`: index of the first user with that id. */
  function FindById(users: seq<User>, id: Id): (r: Option<nat>)
    ensures r.Some? ==> r.value < |users| && users[r.value].id == id
    ensures r.None? ==> forall k :: 0 <= k < |users| ==> users[k].id != id
  {
    FindFirst(users, (u: User) => u.id == id)
  }

  /** Every stored email is in lower case (the schema's `lowercase: true`). */
  ghost predicate EmailsLowerCase(users: seq<User>) {
    forall k :: 0 <= k < |users| ==> Lower(users[k].email) == users[k].email
  }

  /** With lower-case stored emails, the lookup ignores case on both sides:
      it finds a user exactly when some stored email equals the argument up to case. */
  lemma {:induction false} FindByEmailIgnoresCase(users: seq<User>, email: string)
    requires EmailsLowerCase(users)
    ensures FindByEmail(users, email).Some? <==>
      exists k :: 0 <= k < |users| && Lower(users[k].email) == Lower(email)
  {
    if exists k :: 0 <= k < |users| && Lower(users[k].email) == Lower(email) {
      var k :| 0 <= k < |users| && Lower(users[k].email) == Lower(email);
      assert users[k].email == Lower(email);
    }
  }

  /** The raw document, with the virtual `id` that `virtuals: true` adds. */
  function ToDocument(u: User, version: nat): Json.Document {
    map[
      "_id" := Json.ObjectId(u.id),
      "id" := Json.HexString(u.id),
      "email" := Json.Str(u.email),
      "passwordHash" := Json.Str(u.passwordHash),
      "createdAt" := Json.Date(u.createdAt),
      "refreshTokens" := Json.StrArray(u.refreshTokens),
      "__v" := Json.Num(version)]
  }

  /** The keys the User schema's transform deletes beyond `_id` and `__v`. */
  const SecretKeys: set<string> := {"passwordHash", "refreshTokens"}

  /** `toJSON`: the projection shows id, email and createdAt and never the
      password hash, the refresh tokens, `_id` or `__v`. */
  function ToJson(u: User, version: nat): (r: Json.Document)
    ensures r.Keys == {"id", "email", "createdAt"}
    ensures r["id"] == Json.HexString(u.id)
    ensures r["email"] == Json.Str(u.email)
    ensures r["createdAt"] == Json.Date(u.createdAt)
  {
    var doc := ToDocument(u, version);
    assert doc.Keys == {"_id", "id", "email", "passwordHash", "createdAt", "refreshTokens", "__v"};
    Json.Transform(doc, SecretKeys)
  }
}
