/** The credential and token lifecycle of src/controllers/auth.controller.js, as
    functions from the user collection before a request to the collection after it
    and the handler's outcome. The imperative handlers in AuthController are proved
    to compute exactly these. */
module Auth {

  import opened Common
  import opened Documents
  import opened UserModel

  datatype Tokens = Tokens(accessToken: Token, refreshToken: Token)

  /** The user collection after a request, and the request's outcome. */
  datatype Step<T> = Step(users: Collection<User>, result: Result<T>)

  /** `user.save()` of a loaded record, for a record that exists. */
  function Put(users: Collection<User>, id: Id, u: User): (r: Collection<User>)
    requires Valid(users) && id in users.rows
    ensures Valid(r) && r.rows == users.rows[id := u] && r.nextId == users.nextId
  {
    Collection(users.rows[id := u], users.nextId)
  }

  /** No request changes which ids exist or any username or email, except registration. */
  ghost predicate SameIdentities(a: Collection<User>, b: Collection<User>)
  {
    && a.rows.Keys == b.rows.Keys
    && a.nextId == b.nextId
    && forall id :: id in a.rows ==>
         b.rows[id].username == a.rows[id].username && b.rows[id].email == a.rows[id].email
  }

  /** Record `id` is replaced by `u`; no other record and no id changes. */
  ghost predicate OnlyRowChanged(a: Collection<User>, b: Collection<User>, id: Id, u: User)
  {
    id in a.rows && b.nextId == a.nextId && b.rows == a.rows[id := u]
  }

  /** Only the refresh-token slot of record `id` differs. */
  ghost predicate OnlyRefreshTokenChanged(a: Collection<User>, b: Collection<User>, id: Id)
  {
    && id in a.rows && a.rows.Keys == b.rows.Keys && a.nextId == b.nextId
    && (forall other :: other in a.rows && other != id ==> b.rows[other] == a.rows[other])
    && b.rows[id] == a.rows[id].(refreshToken := b.rows[id].refreshToken)
  }

  /** The filter `{ $or: [{ username }, { email }] }` after Mongoose casts the values
      through the schema's lowercase and trim setters; a missing value matches nothing. */
  function ByUsernameOrEmail(username: Option<string>, email: Option<string>): User -> bool
  {
    (u: User) => (username.Some? && u.username == Normalize(username.value))
              || (email.Some? && u.email == Normalize(email.value))
  }

  /** The filter `{ email }`. */
  function ByEmail(email: Option<string>): User -> bool
  {
    (u: User) => email.Some? && u.email == Normalize(email.value)
  }

  /** The filter `{ emailVerificationToken: digest, emailVerificationExpiry: { $gt: now } }`. */
  function HoldsVerification(digest: Digest, now: nat): User -> bool
  {
    (u: User) => u.emailVerificationToken == Some(digest)
              && u.emailVerificationExpiry.Some? && u.emailVerificationExpiry.value > now
  }

  /** The filter `{ forgotPasswordToken: digest, forgotPasswordTokenExpiry: { $gt: now } }`. */
  function HoldsReset(digest: Digest, now: nat): User -> bool
  {
    (u: User) => u.forgotPasswordToken == Some(digest)
              && u.forgotPasswordTokenExpiry.Some? && u.forgotPasswordTokenExpiry.value > now
  }

  /** `generateTokens(userId)`: signs a fresh pair and stores the refresh token in the
      user's single slot, overwriting whatever was there. */
  function GenerateTokens(cfg: Config, users: Collection<User>, id: Id, now: nat): (r: Step<Tokens>)
    requires Valid(users) && id in users.rows
    ensures r.result == Ok(Tokens(GenerateAccessToken(cfg, id, users.rows[id], now), GenerateRefreshToken(cfg, id, now)))
    ensures OnlyRefreshTokenChanged(users, r.users, id)
    ensures r.users.rows[id].refreshToken == Some(r.result.value.refreshToken)
  {
    var user := users.rows[id];
    var accessToken := GenerateAccessToken(cfg, id, user, now);
    var refreshToken := GenerateRefreshToken(cfg, id, now);
    Step(Put(users, id, user.(refreshToken := Some(refreshToken))), Ok(Tokens(accessToken, refreshToken)))
  }

  /** The record a registration stores: `User.create` normalises the identities, trims
      the full name (default "") and hashes the password; the unverified record then
      holds the digest of a fresh verification token and its expiry. */
  function RegisteredUser(username: string, email: string, password: string, fullName: Option<string>,
                          salt: Salt, random: string, now: nat): (u: User)
    ensures u.username == Normalize(username) && u.email == Normalize(email)
    ensures u.fullName == (if Truthy(fullName) then Trim(fullName.value) else "")
    ensures IsPasswordCorrect(u.password, password)
    ensures !u.isEmailVerified && u.refreshToken.None?
    ensures u.forgotPasswordToken.None? && u.forgotPasswordTokenExpiry.None?
    ensures u.emailVerificationToken == Some(Sha256(random))
    ensures u.emailVerificationExpiry == Some(now + TemporaryTokenLifetime)
  {
    var token := GenerateTemporaryToken(random, now);
    var user := NewUser(username, email, password, if Truthy(fullName) then fullName.value else "", salt);
    assert Trim("") == "";
    user.(emailVerificationToken := Some(token.hashedToken), emailVerificationExpiry := Some(token.tokenExpiry))
  }

  /** `registerUser`: 400 on a missing or blank username, email or password, 409 when
      either identity is taken; otherwise a new unverified record holding the hash of a
      fresh verification token. Returns the new record's id. */
  function Register(users: Collection<User>, username: Option<string>, email: Option<string>,
                    password: Option<string>, fullName: Option<string>, salt: Salt, random: string, now: nat): (r: Step<Id>)
    requires Valid(users)
    ensures Valid(r.users)
    ensures r.result.Err? ==> r.users == users
    ensures r.result == Err(BadRequest) <==> Blank(username) || Blank(email) || Blank(password)
    ensures r.result == Err(Conflict) <==>
      !(Blank(username) || Blank(email) || Blank(password)) && FindOne(users, ByUsernameOrEmail(username, email)).Some?
    ensures r.result.Ok? <==> !(Blank(username) || Blank(email) || Blank(password))
                              && FindOne(users, ByUsernameOrEmail(username, email)).None?
    ensures r.result.Ok? ==>
      && r.result.value == users.nextId
      && r.users == Insert(users, RegisteredUser(username.value, email.value, password.value, fullName, salt, random, now))
  {
    if Blank(username) || Blank(email) || Blank(password) then Step(users, Err(BadRequest))
    else if FindOne(users, ByUsernameOrEmail(username, email)).Some? then Step(users, Err(Conflict))
    else
      Step(Insert(users, RegisteredUser(username.value, email.value, password.value, fullName, salt, random, now)),
           Ok(users.nextId))
  }

  /** `loginUser`: 400 without email and username, 404 when no record matches, 401 on a
      wrong password (an absent one makes bcrypt throw: 500); otherwise `generateTokens`. */
  function Login(cfg: Config, users: Collection<User>, email: Option<string>, username: Option<string>,
                 password: Option<string>, now: nat): (r: Step<Tokens>)
    requires Valid(users)
    ensures r.result.Err? ==> r.users == users
    ensures r.result == Err(BadRequest) <==> !(Truthy(email) || Truthy(username))
    ensures r.result == Err(NotFound) <==>
      (Truthy(email) || Truthy(username)) && FindOne(users, ByUsernameOrEmail(username, email)).None?
    ensures r.result == Err(Internal) <==>
      (Truthy(email) || Truthy(username)) && FindOne(users, ByUsernameOrEmail(username, email)).Some?
      && password.None?
    ensures r.result == Err(Unauthorized) <==>
      (Truthy(email) || Truthy(username)) && FindOne(users, ByUsernameOrEmail(username, email)).Some?
      && password.Some?
      && !IsPasswordCorrect(users.rows[FindOne(users, ByUsernameOrEmail(username, email)).value].password, password.value)
    ensures r.result.Ok? ==>
      && (Truthy(email) || Truthy(username))
      && FindOne(users, ByUsernameOrEmail(username, email)).Some?
      && password.Some?
      && var id := FindOne(users, ByUsernameOrEmail(username, email)).value;
      && IsPasswordCorrect(users.rows[id].password, password.value)
      && r.result.value == Tokens(GenerateAccessToken(cfg, id, users.rows[id], now), GenerateRefreshToken(cfg, id, now))
      && OnlyRefreshTokenChanged(users, r.users, id)
      && r.users.rows[id].refreshToken == Some(r.result.value.refreshToken)
  {
    if !(Truthy(email) || Truthy(username)) then Step(users, Err(BadRequest))
    else match FindOne(users, ByUsernameOrEmail(username, email))
      case None => Step(users, Err(NotFound))
      case Some(id) =>
        if password.None? then Step(users, Err(Internal))
        else if !IsPasswordCorrect(users.rows[id].password, password.value) then Step(users, Err(Unauthorized))
        else GenerateTokens(cfg, users, id, now)
  }

  /** Logout with the refresh-token slot removed (`$unset`), which is what the handler
      means to do; see LogoutAsWritten for what its `$set: { refreshToken: undefined }`
      does. Unknown ids are not checked: the response is 200 either way. */
  function Logout(users: Collection<User>, id: Id): (r: Step<()>)
    requires Valid(users)
    ensures r.result == Ok(())
    ensures id in users.rows ==> OnlyRefreshTokenChanged(users, r.users, id) && r.users.rows[id].refreshToken.None?
    ensures id !in users.rows ==> r.users == users
  {
    if id in users.rows then Step(Put(users, id, users.rows[id].(refreshToken := None)), Ok(()))
    else Step(users, Ok(()))
  }

  /** `logoutUser` as written: Mongoose (from version 6) strips keys whose value is
      `undefined` from an update, so `findByIdAndUpdate(id, { $set: { refreshToken:
      undefined } })` sends an empty update and the slot keeps its token. */
  function LogoutAsWritten(users: Collection<User>, id: Id): (r: Step<()>)
    ensures r.result == Ok(()) && r.users == users
  {
    Step(users, Ok(()))
  }

  /** `verifyEmail`: 400 unless some record holds the digest of the presented token with
      an expiry strictly after now; that record's pending token is cleared and the
      email marked verified. */
  function VerifyEmail(users: Collection<User>, token: string, now: nat): (r: Step<()>)
    requires Valid(users)
    ensures r.result.Err? ==> r.users == users && r.result.status == BadRequest
    ensures r.result.Ok? <==> token != "" && exists id :: id in users.rows && HoldsVerification(Sha256(token), now)(users.rows[id])
    ensures r.result.Ok? ==>
      && FindOne(users, HoldsVerification(Sha256(token), now)).Some?
      && var id := FindOne(users, HoldsVerification(Sha256(token), now)).value;
      OnlyRowChanged(users, r.users, id,
                     users.rows[id].(emailVerificationToken := None, emailVerificationExpiry := None, isEmailVerified := true))
    ensures SameIdentities(users, r.users)
  {
    if token == "" then Step(users, Err(BadRequest))
    else match FindOne(users, HoldsVerification(Sha256(token), now))
      case None => Step(users, Err(BadRequest))
      case Some(id) =>
        var user := users.rows[id];
        Step(Put(users, id, user.(emailVerificationToken := None, emailVerificationExpiry := None, isEmailVerified := true)), Ok(()))
  }

  /** The token the refresh handler reads: the cookie, else the body field (an empty
      string counts as missing). */
  function IncomingRefreshToken(cookie: Option<Token>, body: Option<Token>): (t: Option<Token>)
    ensures t.None? <==> (cookie.None? || cookie.value == Other("")) && (body.None? || body.value == Other(""))
    ensures t.Some? ==> t.value != Other("") && (t == cookie || t == body)
    ensures cookie.Some? && cookie.value != Other("") ==> t == cookie
  {
    if cookie.Some? && cookie.value != Other("") then cookie
    else if body.Some? && body.value != Other("") then body
    else None
  }

  /** `refreshAccessToken`: 401 unless the token verifies against the refresh secret,
      names an existing record and equals the token stored there; then `generateTokens`
      rotates the stored token. Every failure on this path surfaces as 401. */
  function RefreshAccessToken(cfg: Config, users: Collection<User>, cookie: Option<Token>, body: Option<Token>, now: nat): (r: Step<Tokens>)
    requires Valid(users)
    ensures r.result.Err? ==> r.users == users && r.result.status == Unauthorized
    ensures r.result.Ok? ==> IncomingRefreshToken(cookie, body).Some?
    ensures r.result.Ok? ==>
      var t := IncomingRefreshToken(cookie, body).value;
      && VerifyJwt(t, RefreshTokenSecret, now).Some?
      && var id := t.claims.id;
      && id in users.rows && users.rows[id].refreshToken == Some(t)
      && OnlyRefreshTokenChanged(users, r.users, id)
      && r.users.rows[id].refreshToken == Some(GenerateRefreshToken(cfg, id, now))
  {
    match IncomingRefreshToken(cookie, body)
    case None => Step(users, Err(Unauthorized))
    case Some(t) =>
      match VerifyJwt(t, RefreshTokenSecret, now)
      case None => Step(users, Err(Unauthorized))
      case Some(claims) =>
        if claims.id !in users.rows then Step(users, Err(Unauthorized))
        else if users.rows[claims.id].refreshToken != Some(t) then Step(users, Err(Unauthorized))
        else GenerateTokens(cfg, users, claims.id, now)
  }

  /** `changePassword`: a wrong old password is 400 and changes nothing; otherwise the
      new password is hashed on save. A missing record or a missing password makes the
      handler throw (500). */
  function ChangePassword(users: Collection<User>, id: Id, oldPassword: Option<string>,
                          newPassword: Option<string>, salt: Salt): (r: Step<()>)
    requires Valid(users)
    ensures r.result.Err? ==> r.users == users
    ensures r.result == Err(BadRequest) <==>
      id in users.rows && oldPassword.Some? && !IsPasswordCorrect(users.rows[id].password, oldPassword.value)
    ensures r.result == Err(Internal) <==>
      id !in users.rows || oldPassword.None?
      || (IsPasswordCorrect(users.rows[id].password, oldPassword.value) && newPassword.None?)
    ensures r.result.Ok? ==>
      && newPassword.Some?
      && OnlyRowChanged(users, r.users, id, users.rows[id].(password := Bcrypt(salt, newPassword.value)))
      && IsPasswordCorrect(r.users.rows[id].password, newPassword.value)
    ensures SameIdentities(users, r.users)
  {
    if id !in users.rows || oldPassword.None? then Step(users, Err(Internal))
    else if !IsPasswordCorrect(users.rows[id].password, oldPassword.value) then Step(users, Err(BadRequest))
    else match PreSave(Assigned(newPassword), salt)
      case Err(e) => Step(users, Err(e))
      case Ok(h) => Step(Put(users, id, users.rows[id].(password := h)), Ok(()))
  }

  /** `forgotPassword`: 404 for an unknown email; otherwise the record holds the digest
      of a fresh reset token (mailed in the clear) for twenty minutes. */
  function ForgotPassword(users: Collection<User>, email: Option<string>, random: string, now: nat): (r: Step<()>)
    requires Valid(users)
    ensures r.result.Err? ==> r.users == users && r.result.status == NotFound
    ensures r.result.Ok? <==> exists id :: id in users.rows && ByEmail(email)(users.rows[id])
    ensures r.result.Ok? ==>
      && FindOne(users, ByEmail(email)).Some?
      && var id := FindOne(users, ByEmail(email)).value;
      OnlyRowChanged(users, r.users, id,
                     users.rows[id].(forgotPasswordToken := Some(Sha256(random)),
                                     forgotPasswordTokenExpiry := Some(now + TemporaryTokenLifetime)))
    ensures SameIdentities(users, r.users)
  {
    match FindOne(users, ByEmail(email))
    case None => Step(users, Err(NotFound))
    case Some(id) =>
      var token := GenerateTemporaryToken(random, now);
      Step(Put(users, id, users.rows[id].(forgotPasswordToken := Some(token.hashedToken),
                                          forgotPasswordTokenExpiry := Some(token.tokenExpiry))), Ok(()))
  }

  /** `resetPassword`: 400 unless some record holds the digest of the presented token
      with an expiry strictly after now; that record's reset token is cleared and the
      new password hashed on save. A missing new password fails the save (500) and
      leaves the token in place. */
  function ResetPassword(users: Collection<User>, resetToken: string, newPassword: Option<string>,
                         salt: Salt, now: nat): (r: Step<()>)
    requires Valid(users)
    ensures r.result.Err? ==> r.users == users
    ensures r.result == Err(BadRequest) <==> !exists id :: id in users.rows && HoldsReset(Sha256(resetToken), now)(users.rows[id])
    ensures r.result == Err(Internal) <==>
      newPassword.None? && exists id :: id in users.rows && HoldsReset(Sha256(resetToken), now)(users.rows[id])
    ensures r.result.Ok? ==>
      && newPassword.Some?
      && FindOne(users, HoldsReset(Sha256(resetToken), now)).Some?
      && var id := FindOne(users, HoldsReset(Sha256(resetToken), now)).value;
      OnlyRowChanged(users, r.users, id,
                     users.rows[id].(forgotPasswordToken := None, forgotPasswordTokenExpiry := None,
                                     password := Bcrypt(salt, newPassword.value)))
    ensures SameIdentities(users, r.users)
  {
    match FindOne(users, HoldsReset(Sha256(resetToken), now))
    case None => Step(users, Err(BadRequest))
    case Some(id) =>
      match PreSave(Assigned(newPassword), salt)
      case Err(e) => Step(users, Err(e))
      case Ok(h) =>
        Step(Put(users, id, users.rows[id].(forgotPasswordToken := None, forgotPasswordTokenExpiry := None, password := h)), Ok(()))
  }

  /** `resendEmailVerification`: 404 for a missing record, 400 when already verified;
      otherwise a fresh verification digest and expiry replace the pending ones. */
  function ResendEmailVerification(users: Collection<User>, id: Id, random: string, now: nat): (r: Step<()>)
    requires Valid(users)
    ensures r.result.Err? ==> r.users == users
    ensures r.result == Err(NotFound) <==> id !in users.rows
    ensures r.result == Err(BadRequest) <==> id in users.rows && users.rows[id].isEmailVerified
    ensures r.result.Ok? <==> id in users.rows && !users.rows[id].isEmailVerified
    ensures r.result.Ok? ==>
      OnlyRowChanged(users, r.users, id,
                     users.rows[id].(emailVerificationToken := Some(Sha256(random)),
                                     emailVerificationExpiry := Some(now + TemporaryTokenLifetime)))
    ensures SameIdentities(users, r.users)
  {
    if id !in users.rows then Step(users, Err(NotFound))
    else if users.rows[id].isEmailVerified then Step(users, Err(BadRequest))
    else
      var token := GenerateTemporaryToken(random, now);
      Step(Put(users, id, users.rows[id].(emailVerificationToken := Some(token.hashedToken),
                                          emailVerificationExpiry := Some(token.tokenExpiry))), Ok(()))
  }
}
