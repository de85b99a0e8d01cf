/** The request checks the authentication endpoints make before calling
    the service. A body field is None when it is missing; a missing or
    empty string is falsy and fails a presence check. */
module AuthController {
  import opened Common
  import opened EmailPatterns
  import UserModel

  const MinPasswordLength := 6

  const CredentialsRequired := HttpError(400, "Email and password are required")
  const PasswordTooShort := HttpError(400, "Password must be at least 6 characters")
  const InvalidEmail := HttpError(400, "Please enter a valid email")
  const RefreshTokenRequired := HttpError(400, "Refresh token is required")
  const NotAuthenticated := HttpError(401, "User not authenticated")

  /** JavaScript truthiness of an optional string. */
  predicate Present(s: Option<string>) {
    s.Some? && |s.value| > 0
  }

  /** `register`'s checks in their order: presence of both fields, then the
      password length, then the email pattern `^\S+@\S+\.\S+$`. None means
      the service is called. */
  function RegisterCheck(email: Option<string>, password: Option<string>): (r: Option<Error>)
    ensures r.None? <==>
      Present(email) && Present(password) && |password.value| >= MinPasswordLength && Test(email.value, NonSpace)
    ensures r == Some(CredentialsRequired) <==> !Present(email) || !Present(password)
    ensures r == Some(PasswordTooShort) <==>
      Present(email) && Present(password) && |password.value| < MinPasswordLength
    ensures r == Some(InvalidEmail) <==>
      Present(email) && Present(password) && |password.value| >= MinPasswordLength && !Test(email.value, NonSpace)
  {
    if !Present(email) || !Present(password) then Some(CredentialsRequired)
    else if |password.value| < MinPasswordLength then Some(PasswordTooShort)
    else if !Test(email.value, NonSpace) then Some(InvalidEmail)
    else None
  }

  /** An accepted registration email, in plain terms: no whitespace, an '@'
      after at least one character, and a '.' with at least one character
      between it and the '@' and at least one after it. */
  lemma RegisterEmailShape(email: string, password: string)
    requires RegisterCheck(Some(email), Some(password)).None?
    ensures forall k :: 0 <= k < |email| ==> !IsWhitespace(email[k])
    ensures exists i, j :: 1 <= i && i + 2 <= j <= |email| - 2 && email[i] == '@' && email[j] == '.'
  {
    TestDecides(email, NonSpace);
    var i, j :| ShapeAt(email, NonSpace, i, j);
    assert 1 <= i && i + 2 <= j <= |email| - 2 && email[i] == '@' && email[j] == '.';
  }

  /** An email the register check accepts still matches the user schema's
      pattern `^.+@.+\..+$` after it is lower-cased for storage, so the
      schema never rejects it. */
  lemma {:induction false} AcceptedEmailFitsSchema(email: string, password: string)
    requires RegisterCheck(Some(email), Some(password)).None?
    ensures UserModel.SchemaEmail(UserModel.Lower(email))
  {
    var lower := UserModel.Lower(email);
    TestDecides(email, NonSpace);
    var i, j :| ShapeAt(email, NonSpace, i, j);
    assert ShapeAt(lower, NonSpace, i, j);
    forall k | 0 <= k < |lower| ensures NonSpace(lower[k]) {
      assert NonSpace(email[k]);
    }
    TestDecides(lower, NonSpace);
    GuardImpliesSchema(lower);
  }

  /** `login` checks presence only: no length and no format check. */
  function LoginCheck(email: Option<string>, password: Option<string>): (r: Option<Error>)
    ensures r.None? <==> Present(email) && Present(password)
    ensures r.Some? ==> r.value == CredentialsRequired
  {
    if !Present(email) || !Present(password) then Some(CredentialsRequired) else None
  }

  /** A password too short to register with still reaches the login service. */
  lemma LoginAcceptsShortPassword()
    ensures LoginCheck(Some("a@b.cd"), Some("abc")).None?
    ensures RegisterCheck(Some("a@b.cd"), Some("abc")) == Some(PasswordTooShort)
  {
  }

  /** `refresh`: 400 when the token is missing or empty. */
  function RefreshCheck(refreshToken: Option<string>): (r: Option<Error>)
    ensures r.None? <==> Present(refreshToken)
    ensures r.Some? ==> r.value == RefreshTokenRequired
  {
    if !Present(refreshToken) then Some(RefreshTokenRequired) else None
  }

  /** `logout`: the token is checked (400) before authentication (401). */
  function LogoutCheck(refreshToken: Option<string>, userId: Option<Id>): (r: Option<Error>)
    ensures r.None? <==> Present(refreshToken) && userId.Some?
    ensures !Present(refreshToken) ==> r == Some(RefreshTokenRequired)
    ensures Present(refreshToken) && userId.None? ==> r == Some(NotAuthenticated)
  {
    if !Present(refreshToken) then Some(RefreshTokenRequired)
    else if userId.None? then Some(NotAuthenticated)
    else None
  }
}
