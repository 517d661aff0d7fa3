/** The handlers of src/controllers/auth.controller.js as methods on the user store.
    Each one performs the handler's lookups and saves step by step, and is proved to
    leave the store, and to answer, exactly as the matching function of Auth says;
    every handler keeps the username and email indexes unique. */
module AuthController {

  import opened Common
  import opened Documents
  import opened UserModel
  import opened Auth
  import opened AuthProperties

  class UserStore {
    var users: Collection<User>
    const cfg: Config

    /** Ids below the counter, and the unique indexes on username and email. */
    ghost predicate Valid()
      reads this
    {
      Documents.Valid(users) && UniqueIdentities(users)
    }

    constructor (cfg: Config)
      ensures Valid() && this.cfg == cfg && users == Empty()
    {
      this.cfg := cfg;
      users := Empty();
    }

    /** `user.save()` of the loaded record `id`, edited to `u`: the pre-save hook hashes
        the password path when a plaintext was assigned to it, and an `undefined`
        plaintext fails the save. */
    method Save(id: Id, u: User, field: PasswordField, salt: Salt) returns (r: Result<()>)
      requires Documents.Valid(users) && id in users.rows
      modifies this
      ensures PreSave(field, salt).Err? ==> r == Err(PreSave(field, salt).status) && users == old(users)
      ensures PreSave(field, salt).Ok? ==> r == Ok(()) && users == Put(old(users), id, u.(password := PreSave(field, salt).value))
    {
      var hash := PreSave(field, salt);
      if hash.Err? {
        return Err(hash.status);
      }
      users := Put(users, id, u.(password := hash.value));
      r := Ok(());
    }

    /** `generateTokens(userId)`. */
    method IssueTokens(id: Id, now: nat) returns (tokens: Tokens)
      requires Valid() && id in users.rows
      modifies this
      ensures Valid()
      ensures Step(users, Ok(tokens)) == GenerateTokens(cfg, old(users), id, now)
    {
      var user := users.rows[id];
      var accessToken := GenerateAccessToken(cfg, id, user, now);
      var refreshToken := GenerateRefreshToken(cfg, id, now);
      user := user.(refreshToken := Some(refreshToken));
      var _ := Save(id, user, Stored(user.password), 0);
      tokens := Tokens(accessToken, refreshToken);
      RefreshSlotKeepsIdentities(old(users), users, id);
      SameIdentitiesKeepUnique(old(users), users);
    }

    /** `registerUser`. */
    method RegisterUser(username: Option<string>, email: Option<string>, password: Option<string>,
                        fullName: Option<string>, salt: Salt, random: string, now: nat) returns (r: Result<Id>)
      requires Valid()
      modifies this
      ensures Valid()
      ensures Step(users, r) == Register(old(users), username, email, password, fullName, salt, random, now)
    {
      if Blank(username) || Blank(email) || Blank(password) {
        return Err(BadRequest);
      }
      var existing := FindOne(users, ByUsernameOrEmail(username, email));
      if existing.Some? {
        return Err(Conflict);
      }
      var user := NewUser(username.value, email.value, password.value, if Truthy(fullName) then fullName.value else "", salt);
      var id := users.nextId;
      users := Insert(users, user);
      ghost var inserted := users;
      var token := GenerateTemporaryToken(random, now);
      user := user.(emailVerificationToken := Some(token.hashedToken), emailVerificationExpiry := Some(token.tokenExpiry));
      var _ := Save(id, user, Stored(user.password), salt);
      InsertThenOverwrite(old(users), inserted.rows[id], user);
      r := Ok(id);
      RegisterKeepsIdentitiesUnique(old(users), username, email, password, fullName, salt, random, now);
    }

    /** `loginUser`. */
    method LoginUser(email: Option<string>, username: Option<string>, password: Option<string>, now: nat)
      returns (r: Result<Tokens>)
      requires Valid()
      modifies this
      ensures Valid()
      ensures Step(users, r) == Login(cfg, old(users), email, username, password, now)
    {
      if !(Truthy(email) || Truthy(username)) {
        return Err(BadRequest);
      }
      var found := FindOne(users, ByUsernameOrEmail(username, email));
      if found.None? {
        return Err(NotFound);
      }
      var user := users.rows[found.value];
      if password.None? {
        return Err(Internal);
      }
      if !IsPasswordCorrect(user.password, password.value) {
        return Err(Unauthorized);
      }
      var tokens := IssueTokens(found.value, now);
      r := Ok(tokens);
    }

    /** `logoutUser`, with the refresh-token slot cleared (see Auth.Logout). */
    method LogoutUser(id: Id) returns (r: Result<()>)
      requires Valid()
      modifies this
      ensures Valid()
      ensures Step(users, r) == Logout(old(users), id)
    {
      if id in users.rows {
        users := Put(users, id, users.rows[id].(refreshToken := None));
        RefreshSlotKeepsIdentities(old(users), users, id);
        SameIdentitiesKeepUnique(old(users), users);
      }
      r := Ok(());
    }

    /** `verifyEmail`. */
    method VerifyEmailToken(verificationToken: string, now: nat) returns (r: Result<()>)
      requires Valid()
      modifies this
      ensures Valid()
      ensures Step(users, r) == VerifyEmail(old(users), verificationToken, now)
    {
      if verificationToken == "" {
        return Err(BadRequest);
      }
      var hashedToken := Sha256(verificationToken);
      var found := FindOne(users, HoldsVerification(hashedToken, now));
      if found.None? {
        return Err(BadRequest);
      }
      var user := users.rows[found.value];
      user := user.(emailVerificationToken := None, emailVerificationExpiry := None, isEmailVerified := true);
      var _ := Save(found.value, user, Stored(user.password), 0);
      r := Ok(());
      SameIdentitiesKeepUnique(old(users), users);
    }

    /** `refreshAccessToken`. */
    method RefreshTokens(cookie: Option<Token>, body: Option<Token>, now: nat) returns (r: Result<Tokens>)
      requires Valid()
      modifies this
      ensures Valid()
      ensures Step(users, r) == RefreshAccessToken(cfg, old(users), cookie, body, now)
    {
      var incoming := IncomingRefreshToken(cookie, body);
      if incoming.None? {
        return Err(Unauthorized);
      }
      var decoded := VerifyJwt(incoming.value, RefreshTokenSecret, now);
      if decoded.None? {
        return Err(Unauthorized);
      }
      var id := decoded.value.id;
      if id !in users.rows {
        return Err(Unauthorized);
      }
      if users.rows[id].refreshToken != incoming {
        return Err(Unauthorized);
      }
      var tokens := IssueTokens(id, now);
      r := Ok(tokens);
    }

    /** `changePassword`. */
    method ChangeUserPassword(id: Id, oldPassword: Option<string>, newPassword: Option<string>, salt: Salt)
      returns (r: Result<()>)
      requires Valid()
      modifies this
      ensures Valid()
      ensures Step(users, r) == ChangePassword(old(users), id, oldPassword, newPassword, salt)
    {
      if id !in users.rows || oldPassword.None? {
        return Err(Internal);
      }
      var user := users.rows[id];
      if !IsPasswordCorrect(user.password, oldPassword.value) {
        return Err(BadRequest);
      }
      r := Save(id, user, Assigned(newPassword), salt);
      SameIdentitiesKeepUnique(old(users), users);
    }

    /** `forgotPassword`; the reset link is mailed, which is not modelled. */
    method ForgotUserPassword(email: Option<string>, random: string, now: nat) returns (r: Result<()>)
      requires Valid()
      modifies this
      ensures Valid()
      ensures Step(users, r) == ForgotPassword(old(users), email, random, now)
    {
      var found := FindOne(users, ByEmail(email));
      if found.None? {
        return Err(NotFound);
      }
      var user := users.rows[found.value];
      var token := GenerateTemporaryToken(random, now);
      user := user.(forgotPasswordToken := Some(token.hashedToken), forgotPasswordTokenExpiry := Some(token.tokenExpiry));
      var _ := Save(found.value, user, Stored(user.password), 0);
      r := Ok(());
      SameIdentitiesKeepUnique(old(users), users);
    }

    /** `resetPassword`. */
    method ResetUserPassword(resetToken: string, newPassword: Option<string>, salt: Salt, now: nat) returns (r: Result<()>)
      requires Valid()
      modifies this
      ensures Valid()
      ensures Step(users, r) == ResetPassword(old(users), resetToken, newPassword, salt, now)
    {
      var hashedToken := Sha256(resetToken);
      var found := FindOne(users, HoldsReset(hashedToken, now));
      if found.None? {
        return Err(BadRequest);
      }
      var user := users.rows[found.value];
      user := user.(forgotPasswordToken := None, forgotPasswordTokenExpiry := None);
      r := Save(found.value, user, Assigned(newPassword), salt);
      SameIdentitiesKeepUnique(old(users), users);
    }

    /** `resendEmailVerification`. */
    method ResendVerification(id: Id, random: string, now: nat) returns (r: Result<()>)
      requires Valid()
      modifies this
      ensures Valid()
      ensures Step(users, r) == ResendEmailVerification(old(users), id, random, now)
    {
      if id !in users.rows {
        return Err(NotFound);
      }
      var user := users.rows[id];
      if user.isEmailVerified {
        return Err(BadRequest);
      }
      var token := GenerateTemporaryToken(random, now);
      user := user.(emailVerificationToken := Some(token.hashedToken), emailVerificationExpiry := Some(token.tokenExpiry));
      var _ := Save(id, user, Stored(user.password), 0);
      r := Ok(());
      SameIdentitiesKeepUnique(old(users), users);
    }
  }
}
