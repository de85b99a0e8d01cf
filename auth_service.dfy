/** Registration, login, refresh-token rotation and logout. Each user keeps
    the refresh tokens it has issued and not yet retired, at most five of
    them: login pushes one and drops the oldest beyond five, refresh swaps
    the presented token for a new one, logout retires one.
    Password hashing and comparison, token signing and token verification
    are outside the model and come in as parameters. */
module AuthService {
  import opened Common
  import opened UserModel
  import TokenList
  import opened Store

  /** What `generateTokens` returns. */
  datatype AuthTokens = AuthTokens(accessToken: string, refreshToken: string)

  /** The part of a verified refresh token's payload the service reads. */
  datatype TokenPayload = TokenPayload(userId: Id)

  /** A successful register or login: the user as saved and the tokens issued. */
  datatype Session = Session(user: User, tokens: AuthTokens)

  const UserAlreadyExists := HttpError(409, "User already exists")
  const InvalidCredentials := HttpError(401, "Invalid credentials")
  const InvalidRefreshToken := HttpError(401, "Invalid refresh token")

  /** `register`: 409 when the email is taken (up to case); otherwise a new
      user with the lower-cased email and the given hash, whose token list is
      exactly the one refresh token issued. `passwordHash` is what bcrypt
      produced; `issued` is what `generateTokens` produced. A document the
      schema rejects is not stored. */
  method Register(db: Database, email: string, passwordHash: string, issued: AuthTokens, now: Time)
    returns (r: Result<Session>)
    requires db.Valid()
    modifies db`users, db`nextId
    ensures db.Valid()
    ensures FindByEmail(old(db.users), email).Some? ==> r == Err(UserAlreadyExists)
    ensures FindByEmail(old(db.users), email).None? && !SatisfiesSchema(NewUser(old(db.nextId), Lower(email), passwordHash, now)) ==>
      r == Err(ValidationFailed)
    ensures r.Err? ==> db.users == old(db.users) && db.nextId == old(db.nextId)
    ensures r.Ok? <==>
      FindByEmail(old(db.users), email).None? && SatisfiesSchema(NewUser(old(db.nextId), Lower(email), passwordHash, now))
    ensures r.Ok? ==>
      && r.value.tokens == issued
      && r.value.user == NewUser(old(db.nextId), Lower(email), passwordHash, now).(refreshTokens := [issued.refreshToken])
      && db.users == old(db.users) + [r.value.user]
  {
    if FindByEmail(db.users, email).Some? {
      return Err(UserAlreadyExists);
    }
    var user := NewUser(db.nextId, Lower(email), passwordHash, now);
    if !SatisfiesSchema(user) {
      return Err(ValidationFailed);
    }
    LowerIdempotent(email);
    var tokens := user.refreshTokens;
    tokens := tokens + [issued.refreshToken];
    user := user.(refreshTokens := tokens);
    AppendKeepsUsersValid(db.users, db.nextId, user);
    var id := db.NewId();
    db.users := db.users + [user];
    assert UsersValid(db.users, db.nextId);
    r := Ok(Session(user, issued));
  }

  /** `login`: the same 401 whether the email is unknown or the password is
      wrong, and then nothing changes; otherwise the issued refresh token is
      pushed and the list cut to its last five. `matches(candidate, hash)`
      stands for `bcrypt.compare`. */
  method Login(db: Database, email: string, password: string, matches: (string, string) -> bool, issued: AuthTokens)
    returns (r: Result<Session>)
    requires db.Valid()
    modifies db`users
    ensures db.Valid()
    ensures r.Err? ==> r.error == InvalidCredentials && db.users == old(db.users)
    ensures FindByEmail(old(db.users), email).None? ==> r.Err?
    ensures FindByEmail(old(db.users), email).Some? ==>
      var i := FindByEmail(old(db.users), email).value;
      var u := old(db.users)[i];
      && (r.Ok? <==> matches(password, u.passwordHash))
      && (r.Ok? ==>
            && db.users == old(db.users)[i := u.(refreshTokens := TokenList.PushCapped(u.refreshTokens, issued.refreshToken))]
            && r.value == Session(db.users[i], issued))
  {
    var found := FindByEmail(db.users, email);
    if found.None? {
      return Err(InvalidCredentials);
    }
    var i := found.value;
    var user := db.users[i];
    if !matches(password, user.passwordHash) {
      return Err(InvalidCredentials);
    }
    var tokens := user.refreshTokens;
    tokens := tokens + [issued.refreshToken];
    if |tokens| > TokenList.MaxRefreshTokens {
      tokens := tokens[|tokens| - TokenList.MaxRefreshTokens..];
    }
    SetTokensKeepsUsersValid(db.users, db.nextId, i, tokens);
    user := user.(refreshTokens := tokens);
    db.users := db.users[i := user];
    assert UsersValid(db.users, db.nextId);
    r := Ok(Session(user, issued));
  }

  /** `refreshTokens`: a token that does not verify is rejected; a 401 when
      its user is gone or the token is not in the user's list, and then
      nothing changes; otherwise the presented token's first occurrence is
      removed, the issued one pushed and the list cut to five.
      `verify` stands for `verifyRefreshToken`, None where it throws. */
  method RefreshTokens(db: Database, refreshToken: string, verify: string -> Option<TokenPayload>, issued: AuthTokens)
    returns (r: Result<AuthTokens>)
    requires db.Valid()
    modifies db`users
    ensures db.Valid()
    ensures r.Err? ==> db.users == old(db.users)
    ensures verify(refreshToken).None? ==> r == Err(TokenRejected)
    ensures verify(refreshToken).Some? ==>
      match FindById(old(db.users), verify(refreshToken).value.userId)
      case None => r == Err(InvalidRefreshToken)
      case Some(i) =>
        var u := old(db.users)[i];
        && (refreshToken !in u.refreshTokens ==> r == Err(InvalidRefreshToken))
        && (refreshToken in u.refreshTokens ==>
              && r == Ok(issued)
              && db.users == old(db.users)[i := u.(refreshTokens := TokenList.Rotate(u.refreshTokens, refreshToken, issued.refreshToken))])
  {
    var payload := verify(refreshToken);
    if payload.None? {
      return Err(TokenRejected);
    }
    var found := FindById(db.users, payload.value.userId);
    if found.None? {
      return Err(InvalidRefreshToken);
    }
    var i := found.value;
    var user := db.users[i];
    var tokenIndex := TokenList.IndexOf(user.refreshTokens, refreshToken);
    if tokenIndex == -1 {
      return Err(InvalidRefreshToken);
    }
    var tokens := user.refreshTokens;
    tokens := tokens[..tokenIndex] + tokens[tokenIndex + 1..];
    tokens := tokens + [issued.refreshToken];
    tokens := TokenList.KeepLast(tokens, TokenList.MaxRefreshTokens);
    SetTokensKeepsUsersValid(db.users, db.nextId, i, tokens);
    user := user.(refreshTokens := tokens);
    db.users := db.users[i := user];
    assert UsersValid(db.users, db.nextId);
    r := Ok(issued);
  }

  /** `logout`: an unknown user or a token not in the list is a silent
      no-op; otherwise only the token's first occurrence is removed. */
  method Logout(db: Database, userId: Id, refreshToken: string)
    requires db.Valid()
    modifies db`users
    ensures db.Valid()
    ensures FindById(old(db.users), userId).None? ==> db.users == old(db.users)
    ensures FindById(old(db.users), userId).Some? ==>
      var i := FindById(old(db.users), userId).value;
      var u := old(db.users)[i];
      && (refreshToken !in u.refreshTokens ==> db.users == old(db.users))
      && db.users == old(db.users)[i := u.(refreshTokens := TokenList.RemoveFirst(u.refreshTokens, refreshToken))]
  {
    var found := FindById(db.users, userId);
    if found.None? {
      return;
    }
    var i := found.value;
    var user := db.users[i];
    var tokenIndex := TokenList.IndexOf(user.refreshTokens, refreshToken);
    if tokenIndex != -1 {
      var tokens := user.refreshTokens;
      tokens := tokens[..tokenIndex] + tokens[tokenIndex + 1..];
      SetTokensKeepsUsersValid(db.users, db.nextId, i, tokens);
      user := user.(refreshTokens := tokens);
      db.users := db.users[i := user];
      assert UsersValid(db.users, db.nextId);
    }
  }
}
