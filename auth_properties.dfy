/** What the credential and token lifecycle promises across requests: registration
    keeps identities unique and its credentials log in, a rotated refresh token cannot
    be replayed, logout revokes the session, and the one-time tokens are single use. */
module AuthProperties {

  import opened Common
  import opened Documents
  import opened UserModel
  import opened Auth

  /** Requests other than registration keep the unique indexes satisfied. */
  lemma SameIdentitiesKeepUnique(a: Collection<User>, b: Collection<User>)
    requires UniqueIdentities(a) && SameIdentities(a, b)
    ensures UniqueIdentities(b)
  {
  }

  /** Rotating or clearing a refresh token changes no identity. */
  lemma RefreshSlotKeepsIdentities(a: Collection<User>, b: Collection<User>, id: Id)
    requires OnlyRefreshTokenChanged(a, b, id)
    ensures SameIdentities(a, b)
    ensures b.rows[id].password == a.rows[id].password
  {
    assert forall other :: other in a.rows ==> b.rows[other].username == a.rows[other].username by {
      forall other | other in a.rows ensures b.rows[other].username == a.rows[other].username {
        if other != id {
          assert b.rows[other] == a.rows[other];
        }
      }
    }
  }

  /** The 409 check keeps the username and email indexes unique. */
  lemma RegisterKeepsIdentitiesUnique(users: Collection<User>, username: Option<string>, email: Option<string>,
                                      password: Option<string>, fullName: Option<string>, salt: Salt, random: string, now: nat)
    requires Valid(users) && UniqueIdentities(users)
    ensures UniqueIdentities(Register(users, username, email, password, fullName, salt, random, now).users)
  {
    var r := Register(users, username, email, password, fullName, salt, random, now);
    if r.result.Ok? {
      InsertUntakenKeepsUnique(users, username.value, email.value,
                               RegisteredUser(username.value, email.value, password.value, fullName, salt, random, now));
    }
  }

  /** A record whose identities the 409 lookup did not find can be inserted without
      breaking either unique index. */
  lemma InsertUntakenKeepsUnique(users: Collection<User>, username: string, email: string, u: User)
    requires Valid(users) && UniqueIdentities(users)
    requires FindOne(users, ByUsernameOrEmail(Some(username), Some(email))).None?
    requires u.username == Normalize(username) && u.email == Normalize(email)
    ensures UniqueIdentities(Insert(users, u))
  {
    NoneTaken(users, username, email);
    InsertKeepsUnique(users, u);
  }

  /** When the 409 lookup finds nothing, no record holds either normalised identity. */
  lemma NoneTaken(users: Collection<User>, username: string, email: string)
    requires Valid(users) && FindOne(users, ByUsernameOrEmail(Some(username), Some(email))).None?
    ensures forall j :: j in users.rows ==>
      users.rows[j].username != Normalize(username) && users.rows[j].email != Normalize(email)
  {
    var taken := ByUsernameOrEmail(Some(username), Some(email));
    forall j | j in users.rows
      ensures users.rows[j].username != Normalize(username) && users.rows[j].email != Normalize(email)
    {
      assert !taken(users.rows[j]);
    }
  }

  /** Inserting a record whose username and email no record holds keeps both indexes unique. */
  lemma InsertKeepsUnique(users: Collection<User>, u: User)
    requires Valid(users) && UniqueIdentities(users)
    requires forall j :: j in users.rows ==> users.rows[j].username != u.username && users.rows[j].email != u.email
    ensures UniqueIdentities(Insert(users, u))
  {
  }

  /** Login by email finds the one record holding that email (the index is unique);
      its password logs in and any other is refused with 401. */
  lemma LoginByEmail(cfg: Config, users: Collection<User>, id: Id, email: string, password: string, wrong: string, now: nat)
    requires Valid(users) && UniqueIdentities(users)
    requires id in users.rows && users.rows[id].email == Normalize(email) && email != ""
    requires IsPasswordCorrect(users.rows[id].password, password)
    ensures Login(cfg, users, Some(email), None, Some(password), now).result.Ok?
    ensures Login(cfg, users, Some(email), None, Some(password), now).users.rows[id].refreshToken
         == Some(GenerateRefreshToken(cfg, id, now))
    ensures wrong != password ==> Login(cfg, users, Some(email), None, Some(wrong), now).result == Err(Unauthorized)
  {
    var matches := ByUsernameOrEmail(None, Some(email));
    assert matches(users.rows[id]);
    var found := FindOne(users, matches);
    assert found == Some(id) by {
      assert users.rows[found.value].email == users.rows[id].email;
    }
  }

  /** After a successful registration, the same email and password log in, as that new
      record, and any other password is refused with 401. */
  lemma RegisterThenLogin(cfg: Config, users: Collection<User>, username: Option<string>, email: Option<string>,
                          password: Option<string>, fullName: Option<string>, salt: Salt, random: string,
                          now: nat, later: nat, wrong: string)
    requires Valid(users) && UniqueIdentities(users)
    requires Register(users, username, email, password, fullName, salt, random, now).result.Ok?
    ensures
      var s := Register(users, username, email, password, fullName, salt, random, now);
      var id := s.result.value;
      && Login(cfg, s.users, email, None, password, later).result.Ok?
      && Login(cfg, s.users, email, None, password, later).users.rows[id].refreshToken
           == Some(GenerateRefreshToken(cfg, id, later))
      && (wrong != password.value ==>
            Login(cfg, s.users, email, None, Some(wrong), later).result == Err(Unauthorized))
  {
    var s := Register(users, username, email, password, fullName, salt, random, now);
    RegisteredRecord(users, username, email, password, fullName, salt, random, now);
    LoginByEmail(cfg, s.users, s.result.value, email.value, password.value, wrong, later);
  }

  /** What a successful registration leaves behind: unique indexes, and a record at
      the new id holding the normalised email and the password's hash. */
  lemma RegisteredRecord(users: Collection<User>, username: Option<string>, email: Option<string>,
                         password: Option<string>, fullName: Option<string>, salt: Salt, random: string, now: nat)
    requires Valid(users) && UniqueIdentities(users)
    requires Register(users, username, email, password, fullName, salt, random, now).result.Ok?
    ensures
      var s := Register(users, username, email, password, fullName, salt, random, now);
      && Valid(s.users) && UniqueIdentities(s.users)
      && email.Some? && email.value != "" && password.Some?
      && s.result.value in s.users.rows
      && s.users.rows[s.result.value].email == Normalize(email.value)
      && IsPasswordCorrect(s.users.rows[s.result.value].password, password.value)
  {
    RegisterKeepsIdentitiesUnique(users, username, email, password, fullName, salt, random, now);
    InsertedRow(users, RegisteredUser(username.value, email.value, password.value, fullName, salt, random, now));
  }

  /** A successful refresh rotates the stored token: the token it returns is accepted by
      the next refresh while it has not expired. */
  lemma RotatedTokenIsAccepted(cfg: Config, users: Collection<User>, cookie: Option<Token>, body: Option<Token>,
                               now: nat, later: nat)
    requires Valid(users)
    requires RefreshAccessToken(cfg, users, cookie, body, now).result.Ok?
    requires later / 1000 < now / 1000 + cfg.refreshTokenExpiry
    ensures
      var s := RefreshAccessToken(cfg, users, cookie, body, now);
      RefreshAccessToken(cfg, s.users, Some(s.result.value.refreshToken), None, later).result.Ok?
  {
    var s := RefreshAccessToken(cfg, users, cookie, body, now);
    var t := IncomingRefreshToken(cookie, body).value;
    var id := t.claims.id;
    assert s.result.value.refreshToken == GenerateRefreshToken(cfg, id, now);
  }

  /** Refresh-token rotation: once a token has been exchanged, presenting it again is
      refused, provided the exchange happened in a later second than the token was
      issued (within the same second the rotated token is the same token). */
  lemma RefreshReplayRejected(cfg: Config, users: Collection<User>, t: Token,
                              cookie: Option<Token>, body: Option<Token>, cookie2: Option<Token>, body2: Option<Token>,
                              now: nat, later: nat)
    requires Valid(users)
    requires IncomingRefreshToken(cookie, body) == Some(t) && IncomingRefreshToken(cookie2, body2) == Some(t)
    requires RefreshAccessToken(cfg, users, cookie, body, now).result.Ok?
    requires t.Jwt? && t.iat != now / 1000
    ensures RefreshAccessToken(cfg, RefreshAccessToken(cfg, users, cookie, body, now).users, cookie2, body2, later).result
         == Err(Unauthorized)
  {
    var s := RefreshAccessToken(cfg, users, cookie, body, now);
    assert s.users.rows[t.claims.id].refreshToken != Some(t);
  }

  /** Logout revokes the session: no refresh token of that user is accepted afterwards. */
  lemma LogoutRevokesRefresh(cfg: Config, users: Collection<User>, id: Id, cookie: Option<Token>, body: Option<Token>, now: nat)
    requires Valid(users)
    requires IncomingRefreshToken(cookie, body).Some?
    requires IncomingRefreshToken(cookie, body).value.Jwt? && IncomingRefreshToken(cookie, body).value.claims.id == id
    ensures RefreshAccessToken(cfg, Logout(users, id).users, cookie, body, now).result == Err(Unauthorized)
  {
  }

  /** A stored refresh token that has not expired is exchanged. */
  lemma StoredTokenRefreshes(cfg: Config, users: Collection<User>, id: Id, issued: nat, later: nat)
    requires Valid(users)
    requires id in users.rows && users.rows[id].refreshToken == Some(GenerateRefreshToken(cfg, id, issued))
    requires later / 1000 < issued / 1000 + cfg.refreshTokenExpiry
    ensures RefreshAccessToken(cfg, users, Some(GenerateRefreshToken(cfg, id, issued)), None, later).result.Ok?
  {
  }

  /** Log in, log out, then refresh with the refresh token the login issued, before it
      expires. As written, logout leaves the token stored and the refresh mints a new
      pair; with the slot actually cleared the refresh is refused. */
  lemma LogoutAsWrittenKeepsSessionAlive(cfg: Config, users: Collection<User>, email: Option<string>,
                                         username: Option<string>, password: Option<string>, now: nat, later: nat)
    requires Valid(users)
    requires Login(cfg, users, email, username, password, now).result.Ok?
    requires later / 1000 < now / 1000 + cfg.refreshTokenExpiry
    ensures
      var s := Login(cfg, users, email, username, password, now);
      var t := s.result.value.refreshToken;
      && t.Jwt?
      && RefreshAccessToken(cfg, LogoutAsWritten(s.users, t.claims.id).users, Some(t), None, later).result.Ok?
      && RefreshAccessToken(cfg, Logout(s.users, t.claims.id).users, Some(t), None, later).result == Err(Unauthorized)
  {
    var s := Login(cfg, users, email, username, password, now);
    var id := FindOne(users, ByUsernameOrEmail(username, email)).value;
    assert Valid(s.users);
    StoredTokenRefreshes(cfg, s.users, id, now, later);
    LogoutRevokesRefresh(cfg, s.users, id, Some(s.result.value.refreshToken), None, later);
  }

  /** At most one record holds `digest` as its pending verification token. */
  ghost predicate VerificationDigestUnique(users: Collection<User>, digest: Digest)
  {
    forall i, j ::
      && i in users.rows && j in users.rows
      && users.rows[i].emailVerificationToken == Some(digest)
      && users.rows[j].emailVerificationToken == Some(digest)
      ==> i == j
  }

  /** At most one record holds `digest` as its pending reset token. */
  ghost predicate ResetDigestUnique(users: Collection<User>, digest: Digest)
  {
    forall i, j ::
      && i in users.rows && j in users.rows
      && users.rows[i].forgotPasswordToken == Some(digest)
      && users.rows[j].forgotPasswordToken == Some(digest)
      ==> i == j
  }

  /** A verification link works once: it marks its record verified, and a second use,
      at any time, is refused with 400. */
  lemma VerifyEmailSingleUse(users: Collection<User>, token: string, now: nat, later: nat)
    requires Valid(users)
    requires VerificationDigestUnique(users, Sha256(token))
    requires VerifyEmail(users, token, now).result.Ok?
    ensures
      var s := VerifyEmail(users, token, now);
      && (exists id :: id in s.users.rows && s.users.rows[id].isEmailVerified && HoldsVerification(Sha256(token), now)(users.rows[id]))
      && VerifyEmail(s.users, token, later).result == Err(BadRequest)
  {
    var s := VerifyEmail(users, token, now);
    var id := FindOne(users, HoldsVerification(Sha256(token), now)).value;
    assert s.users.rows == users.rows[id := s.users.rows[id]];
    forall j | j in s.users.rows ensures !HoldsVerification(Sha256(token), later)(s.users.rows[j]) {
      assert j != id ==> s.users.rows[j] == users.rows[j];
    }
  }

  /** A reset link works once: it sets the new password, and a second use, at any time
      and with any password, is refused with 400. */
  lemma ResetPasswordSingleUse(users: Collection<User>, token: string, newPassword: Option<string>, salt: Salt, now: nat,
                               otherPassword: Option<string>, salt2: Salt, later: nat)
    requires Valid(users)
    requires ResetDigestUnique(users, Sha256(token))
    requires ResetPassword(users, token, newPassword, salt, now).result.Ok?
    ensures
      var s := ResetPassword(users, token, newPassword, salt, now);
      && newPassword.Some?
      && (exists id :: id in s.users.rows && HoldsReset(Sha256(token), now)(users.rows[id])
                       && IsPasswordCorrect(s.users.rows[id].password, newPassword.value))
      && ResetPassword(s.users, token, otherPassword, salt2, later).result == Err(BadRequest)
  {
    var s := ResetPassword(users, token, newPassword, salt, now);
    var id := FindOne(users, HoldsReset(Sha256(token), now)).value;
    assert s.users.rows == users.rows[id := s.users.rows[id]];
    assert IsPasswordCorrect(s.users.rows[id].password, newPassword.value);
    forall j | j in s.users.rows ensures !HoldsReset(Sha256(token), later)(s.users.rows[j]) {
      assert j != id ==> s.users.rows[j] == users.rows[j];
    }
  }

  /** The forgot/reset round trip: a reset requested for a known email and presented
      within twenty minutes sets the new password on that email's record. */
  lemma ForgotThenReset(users: Collection<User>, email: Option<string>, random: string, now: nat,
                        newPassword: string, salt: Salt, later: nat)
    requires Valid(users)
    requires exists id :: id in users.rows && ByEmail(email)(users.rows[id])
    requires forall id :: id in users.rows ==> users.rows[id].forgotPasswordToken != Some(Sha256(random))
    requires later < now + TemporaryTokenLifetime
    ensures
      var s1 := ForgotPassword(users, email, random, now);
      var s2 := ResetPassword(s1.users, random, Some(newPassword), salt, later);
      var id := FindOne(users, ByEmail(email)).value;
      && s1.result.Ok? && s2.result.Ok?
      && IsPasswordCorrect(s2.users.rows[id].password, newPassword)
      && s2.users.rows[id].forgotPasswordToken.None?
  {
    ForgotLeavesOneHolder(users, email, random, now, later);
  }

  /** After `forgotPassword`, the email's record is the one record holding the mailed
      token until it expires. */
  lemma ForgotLeavesOneHolder(users: Collection<User>, email: Option<string>, random: string, now: nat, later: nat)
    requires Valid(users)
    requires exists id :: id in users.rows && ByEmail(email)(users.rows[id])
    requires forall id :: id in users.rows ==> users.rows[id].forgotPasswordToken != Some(Sha256(random))
    requires later < now + TemporaryTokenLifetime
    ensures
      var s1 := ForgotPassword(users, email, random, now);
      && s1.result.Ok?
      && FindOne(s1.users, HoldsReset(Sha256(random), later)) == Some(FindOne(users, ByEmail(email)).value)
  {
    var s1 := ForgotPassword(users, email, random, now);
    var id := FindOne(users, ByEmail(email)).value;
    assert s1.users.rows == users.rows[id := s1.users.rows[id]];
    var holds := HoldsReset(Sha256(random), later);
    assert holds(s1.users.rows[id]);
    forall j | j in s1.users.rows && j != id ensures !holds(s1.users.rows[j]) {
      assert s1.users.rows[j] == users.rows[j];
    }
    OnlyMatchIsFound(s1.users, holds, id);
  }

  /** The two one-time tokens do not cross: the verification token a registration mails
      out does not reset the new account's password, however soon it is presented. */
  lemma VerificationTokenIsNotAResetToken(users: Collection<User>, username: Option<string>, email: Option<string>,
                                          password: Option<string>, fullName: Option<string>, salt: Salt,
                                          random: string, now: nat, newPassword: Option<string>, salt2: Salt, later: nat)
    requires Valid(users)
    requires forall id :: id in users.rows ==> users.rows[id].forgotPasswordToken != Some(Sha256(random))
    ensures
      var s := Register(users, username, email, password, fullName, salt, random, now);
      ResetPassword(s.users, random, newPassword, salt2, later).result == Err(BadRequest)
  {
    var s := Register(users, username, email, password, fullName, salt, random, now);
    if s.result.Ok? {
      InsertWithoutResetToken(users, RegisteredUser(username.value, email.value, password.value, fullName, salt, random, now),
                              Sha256(random));
    }
    ResetRefused(s.users, random, newPassword, salt2, later);
  }

  lemma InsertWithoutResetToken(users: Collection<User>, u: User, digest: Digest)
    requires Valid(users) && u.forgotPasswordToken.None?
    requires forall id :: id in users.rows ==> users.rows[id].forgotPasswordToken != Some(digest)
    ensures forall id :: id in Insert(users, u).rows ==> Insert(users, u).rows[id].forgotPasswordToken != Some(digest)
  {
  }

  /** A token whose digest no record holds is refused with 400. */
  lemma ResetRefused(users: Collection<User>, token: string, newPassword: Option<string>, salt: Salt, now: nat)
    requires Valid(users)
    requires forall id :: id in users.rows ==> users.rows[id].forgotPasswordToken != Some(Sha256(token))
    ensures ResetPassword(users, token, newPassword, salt, now).result == Err(BadRequest)
  {
    forall j | j in users.rows ensures !HoldsReset(Sha256(token), now)(users.rows[j]) {
    }
  }
}
