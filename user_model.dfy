/** The User schema and its instance methods (src/models/user.model.js).

    Cryptography is symbolic. A bcrypt hash is the term `Bcrypt(salt, plain)` and a
    SHA-256 digest the term `Sha256Hex(preimage)`: equal terms come from equal inputs,
    which is the collision resistance the code relies on, and nothing reads a
    preimage except the re-hash-and-compare that bcrypt.compare and the token lookups
    perform. A JWT is the term `Jwt(key, claims, iat, exp)`: only the holder of a
    signing secret can build one for that secret, and `jwt.verify` checks the secret
    and the expiry. Randomness (bcrypt salts, the random bytes of a temporary token)
    and the clock (`Date.now()` in milliseconds) are parameters. */
module UserModel {

  import opened Common
  import opened Documents

  type Salt = nat

  /** `bcrypt.hash(plain, 10)` with the salt it drew. */
  datatype PasswordHash = Bcrypt(salt: Salt, plain: string)

  /** `crypto.createHash("sha256").update(s).digest("hex")`. */
  datatype Digest = Sha256Hex(preimage: string)

  function Sha256(s: string): Digest
  {
    Sha256Hex(s)
  }

  datatype SigningKey = AccessTokenSecret | RefreshTokenSecret

  /** The payloads the two token generators sign. */
  datatype Claims =
    | AccessClaims(id: Id, email: string, username: string)
    | RefreshClaims(id: Id)

  /** A token as presented by a client: a signed JWT (issued-at and expiry in seconds),
      or any other string. */
  datatype Token = Jwt(key: SigningKey, claims: Claims, iat: nat, exp: nat) | Other(text: string)

  /** `ACCESS_TOKEN_EXPIRY` and `REFRESH_TOKEN_EXPIRY`, in seconds. */
  datatype Config = Config(accessTokenExpiry: nat, refreshTokenExpiry: nat)

  datatype User = User(
    username: string,
    email: string,
    fullName: string,
    password: PasswordHash,
    isEmailVerified: bool,
    refreshToken: Option<Token>,
    forgotPasswordToken: Option<Digest>,
    forgotPasswordTokenExpiry: Option<nat>,
    emailVerificationToken: Option<Digest>,
    emailVerificationExpiry: Option<nat>)

  /** The `password` path of a loaded document: the stored hash, or a plaintext the
      handler assigned since loading (`undefined` when the request had none). */
  datatype PasswordField = Stored(hash: PasswordHash) | Assigned(plain: Option<string>)

  /** The pre-save hook: re-hash only when the password path was modified. Hashing
      `undefined` throws, which fails the save. */
  function PreSave(field: PasswordField, salt: Salt): (r: Result<PasswordHash>)
    ensures field.Stored? ==> r == Ok(field.hash)
    ensures field.Assigned? && field.plain.None? ==> r == Err(Internal)
    ensures field.Assigned? && field.plain.Some? ==> r.Ok? && r.value.salt == salt
  {
    match field
    case Stored(h) => Ok(h)
    case Assigned(None) => Err(Internal)
    case Assigned(Some(p)) => Ok(Bcrypt(salt, p))
  }

  /** `isPasswordCorrect(p)`: bcrypt.compare re-hashes `p` with the stored salt and
      compares; it holds exactly when `p` is the plaintext that was hashed. */
  function IsPasswordCorrect(stored: PasswordHash, p: string): (ok: bool)
    ensures ok <==> stored.plain == p
  {
    Bcrypt(stored.salt, p) == stored
  }

  /** After assigning `p` and saving, `p` verifies and every other plaintext is rejected;
      a save that did not touch the password keeps the hash, so whatever verified before
      still verifies. */
  lemma PasswordAfterSave(field: PasswordField, salt: Salt, p: string, q: string)
    requires PreSave(field, salt).Ok?
    ensures field == Assigned(Some(p)) ==>
      IsPasswordCorrect(PreSave(field, salt).value, p) &&
      (q != p ==> !IsPasswordCorrect(PreSave(field, salt).value, q))
    ensures field.Stored? ==>
      (IsPasswordCorrect(PreSave(field, salt).value, q) <==> IsPasswordCorrect(field.hash, q))
  {
  }

  /** `generateAccessToken()`: signs `_id`, `email` and `username`. */
  function GenerateAccessToken(cfg: Config, id: Id, u: User, now: nat): (t: Token)
    ensures t.Jwt? && t.key == AccessTokenSecret
    ensures t.claims == AccessClaims(id, u.email, u.username)
    ensures t.iat == now / 1000 && t.exp == t.iat + cfg.accessTokenExpiry
  {
    Jwt(AccessTokenSecret, AccessClaims(id, u.email, u.username), now / 1000, now / 1000 + cfg.accessTokenExpiry)
  }

  /** `generateRefreshToken()`: signs `_id` only. */
  function GenerateRefreshToken(cfg: Config, id: Id, now: nat): (t: Token)
    ensures t.Jwt? && t.key == RefreshTokenSecret
    ensures t.claims == RefreshClaims(id)
    ensures t.iat == now / 1000 && t.exp == t.iat + cfg.refreshTokenExpiry
  {
    Jwt(RefreshTokenSecret, RefreshClaims(id), now / 1000, now / 1000 + cfg.refreshTokenExpiry)
  }

  /** `jwt.verify(token, secret)`: the payload when the token was signed with `key`
      and the current second is before its expiry; otherwise it throws. */
  function VerifyJwt(t: Token, key: SigningKey, now: nat): (claims: Option<Claims>)
    ensures claims.Some? <==> t.Jwt? && t.key == key && now / 1000 < t.exp
    ensures claims.Some? ==> claims.value == t.claims
  {
    if t.Jwt? && t.key == key && now / 1000 < t.exp then Some(t.claims) else None
  }

  /** A refresh token verifies against the refresh secret, and only it, until its expiry. */
  lemma RefreshTokenVerifies(cfg: Config, id: Id, issued: nat, now: nat)
    ensures VerifyJwt(GenerateRefreshToken(cfg, id, issued), RefreshTokenSecret, now) == Some(RefreshClaims(id))
        <==> now / 1000 < issued / 1000 + cfg.refreshTokenExpiry
    ensures VerifyJwt(GenerateRefreshToken(cfg, id, issued), AccessTokenSecret, now).None?
  {
  }

  /** The fixed lifetime of a verification or reset token: twenty minutes. */
  const TemporaryTokenLifetime: nat := 20 * 60 * 1000

  datatype TemporaryToken = TemporaryToken(unhashedToken: string, hashedToken: Digest, tokenExpiry: nat)

  /** `generateTemporaryToken()`, given the hex string of the 20 random bytes. Only the
      hash and the expiry are stored; the unhashed token goes out by mail. */
  function GenerateTemporaryToken(random: string, now: nat): (t: TemporaryToken)
    ensures t.unhashedToken == random
    ensures t.hashedToken == Sha256(t.unhashedToken)
    ensures t.tokenExpiry == now + 1200000
  {
    TemporaryToken(random, Sha256(random), now + TemporaryTokenLifetime)
  }

  /** The record `User.create` makes: username and email lowercased and trimmed, the
      full name trimmed, the password hashed, the email not yet verified. */
  function NewUser(username: string, email: string, password: string, fullName: string, salt: Salt): (u: User)
    ensures u.username == Normalize(username) && u.email == Normalize(email)
    ensures u.fullName == Trim(fullName)
    ensures IsPasswordCorrect(u.password, password)
    ensures !u.isEmailVerified && u.refreshToken.None?
    ensures u.forgotPasswordToken.None? && u.forgotPasswordTokenExpiry.None?
    ensures u.emailVerificationToken.None? && u.emailVerificationExpiry.None?
  {
    User(Normalize(username), Normalize(email), Trim(fullName), Bcrypt(salt, password),
         false, None, None, None, None, None)
  }

  /** The unique indexes on `username` and `email`. */
  ghost predicate UniqueIdentities(users: Collection<User>)
  {
    forall i, j :: i in users.rows && j in users.rows && i != j ==>
      users.rows[i].username != users.rows[j].username &&
      users.rows[i].email != users.rows[j].email
  }
}
