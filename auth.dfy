/** `AuthController`: registration with a salted HMAC-SHA512 password hash,
    and login, which refuses unknown e-mails and accounts without a hash,
    migrates a legacy unsalted record to a salted one on a successful
    legacy verification, and otherwise checks the salted hash. */
module Auth {
  import opened Common
  import opened Entities
  import opened Formatting

  /** Bytes of an HMAC-SHA512 digest. */
  const HashSize := 64

  /** Bytes of the random key `new HMACSHA512()` generates. */
  const KeySize := 128

  type HmacKey = k: Bytes | |k| == KeySize witness seq(KeySize, i => 0 as byte)

  /** The primitives the controller calls, taken as given:
      `hmac(key, password)` is `new HMACSHA512(key).ComputeHash(Encoding.UTF8.GetBytes(password))`,
      `toBase64` is `Convert.ToBase64String`, and `fromBase64` is
      `Convert.FromBase64String`, Null where that throws a FormatException. */
  datatype Crypto = Crypto(hmac: (Bytes, string) -> Bytes, toBase64: Bytes -> string, fromBase64: string -> Nullable<Bytes>)

  /** The properties of those primitives the model relies on. */
  ghost predicate Lawful(c: Crypto) {
    && (forall b: Bytes :: c.fromBase64(c.toBase64(b)) == Some(b))
    && (forall b: Bytes :: b != [] ==> c.toBase64(b) != "")
    && (forall k: Bytes, m: string :: |c.hmac(k, m)| == HashSize)
  }

  datatype UserDto = UserDto(name: string, email: string, password: string, role: Nullable<string>)

  const UserExistsMessage := "User already exists"
  const RegisteredMessage := "User registered successfully"
  const UserNotFoundMessage := "User not found"
  const InvalidAccountMessage := "Invalid user account. Please register again."
  const WrongPasswordMessage := "Wrong password"
  const LoginErrorMessage := "An error occurred during login. Please try again."

  // ----- password hashing -----

  datatype SaltedHash = SaltedHash(hash: Bytes, salt: Bytes)

  /** The hash `VerifyPasswordHash` accepts for the password and salt it
      was made from. */
  predicate VerifyPasswordHash(c: Crypto, password: string, storedHash: Bytes, storedSalt: Bytes) {
    c.hmac(storedSalt, password) == storedHash
  }

  /** `VerifyPasswordHashWithoutSalt` keys the HMAC with a fresh random key,
      given here as `randomKey`: whether it accepts depends on that key. */
  predicate VerifyPasswordHashWithoutSalt(c: Crypto, password: string, storedHash: Bytes, randomKey: HmacKey) {
    c.hmac(randomKey, password) == storedHash
  }

  /** `CreatePasswordHash`: the random key of a new HMACSHA512 becomes the
      salt, and the pair verifies against the password it was made from. */
  function CreatePasswordHash(c: Crypto, password: string, key: HmacKey): (h: SaltedHash)
    ensures h.salt == key && |h.salt| == KeySize
    ensures VerifyPasswordHash(c, password, h.hash, h.salt)
  {
    SaltedHash(c.hmac(key, password), key)
  }

  // ----- the token -----

  datatype ClaimType = NameIdentifier | EmailAddress | RoleName

  datatype Claim = Claim(claimType: ClaimType, value: string)

  /** The claim list of `CreateToken`. `new Claim(type, null)` throws, so a
      token needs a role. */
  function TokenClaims(user: User): (claims: seq<Claim>)
    requires user.role.Some?
    ensures |claims| == 3
    ensures claims[0].claimType == NameIdentifier && ParseGuid(claims[0].value) == Some(user.userId)
    ensures claims[1] == Claim(EmailAddress, user.email)
    ensures claims[2] == Claim(RoleName, user.role.value)
  {
    GuidToStringParses(user.userId);
    [Claim(NameIdentifier, GuidToString(user.userId)), Claim(EmailAddress, user.email), Claim(RoleName, user.role.value)]
  }

  /** Two users with the same claims agree on id, e-mail and role. */
  lemma ClaimsIdentifyUser(u: User, v: User)
    requires u.role.Some? && v.role.Some?
    requires TokenClaims(u) == TokenClaims(v)
    ensures u.userId == v.userId && u.email == v.email && u.role == v.role
  {
  }

  datatype UserView = UserView(userId: Guid, name: string, email: string, role: string)

  /** The 200 body of a login: the token (as its claims) and the user. */
  datatype LoginBody = LoginBody(token: seq<Claim>, user: UserView)

  /** `CreateToken` and the Ok response; a null role makes the Claim
      constructor throw, which the login's catch turns into a BadRequest. */
  function IssueToken(user: User): (r: ActionResult<LoginBody>)
    ensures r.Ok? <==> user.role.Some?
    ensures r.Ok? ==> r.value.token == TokenClaims(user)
    ensures r.Ok? ==> r.value.user == UserView(user.userId, user.name, user.email, user.role.value)
    ensures !r.Ok? ==> r == BadRequest(Some(LoginErrorMessage))
  {
    if user.role.Null? then BadRequest(Some(LoginErrorMessage))
    else Ok(LoginBody(TokenClaims(user), UserView(user.userId, user.name, user.email, user.role.value)))
  }

  // ----- the login decision for one record -----

  predicate Salted(user: User) {
    !IsNullOrEmpty(user.passwordHash) && !IsNullOrEmpty(user.passwordSalt)
  }

  predicate Legacy(user: User) {
    !IsNullOrEmpty(user.passwordHash) && IsNullOrEmpty(user.passwordSalt)
  }

  /** The stored hash and salt both decode and the password's salted hash matches. */
  predicate SaltedMatch(c: Crypto, user: User, password: string)
    requires Salted(user)
  {
    match (c.fromBase64(user.passwordHash.value), c.fromBase64(user.passwordSalt.value))
    case (Some(h), Some(s)) => VerifyPasswordHash(c, password, h, s)
    case _ => false
  }

  /** The stored hash decodes and the unsalted verification accepts it. */
  predicate LegacyMatch(c: Crypto, user: User, password: string, randomKey: HmacKey)
    requires Legacy(user)
  {
    match c.fromBase64(user.passwordHash.value)
    case Some(h) => VerifyPasswordHashWithoutSalt(c, password, h, randomKey)
    case Null => false
  }

  /** The record after the legacy migration: a fresh salted hash of the password. */
  function Migrated(c: Crypto, user: User, password: string, freshKey: HmacKey): (m: User)
    ensures m == user.(passwordHash := m.passwordHash, passwordSalt := m.passwordSalt)
    ensures Lawful(c) ==> Salted(m) && SaltedMatch(c, m, password)
  {
    var h := CreatePasswordHash(c, password, freshKey);
    user.(passwordHash := Some(c.toBase64(h.hash)), passwordSalt := Some(c.toBase64(h.salt)))
  }

  datatype LoginStep = LoginStep(response: ActionResult<LoginBody>, record: User)

  /** The part of `Login` after the user is found: the response and the record
      as saved. `legacyKey` is the random key of the unsalted verification,
      `freshKey` the one of the migration. */
  function Authenticate(c: Crypto, user: User, password: string, legacyKey: HmacKey, freshKey: HmacKey): (step: LoginStep)
    // only the hash and the salt of the record can change
    ensures step.record == user.(passwordHash := step.record.passwordHash, passwordSalt := step.record.passwordSalt)
    ensures step.response.Ok? || step.response.BadRequest?
    ensures step.response.Ok? ==> step.response == IssueToken(step.record)
    // an account without a hash is refused whatever the password
    ensures IsNullOrEmpty(user.passwordHash) ==> step == LoginStep(BadRequest(Some(InvalidAccountMessage)), user)
    // salted: the record never changes, and login succeeds iff the recomputed hash matches
    ensures Salted(user) ==> step.record == user
    ensures Salted(user) ==> (step.response.Ok? <==> SaltedMatch(c, user, password) && user.role.Some?)
    ensures Salted(user) && SaltedMatch(c, user, password) ==> step.response == IssueToken(user)
    // legacy: a successful verification migrates the record, a failed one changes nothing
    ensures Legacy(user) && LegacyMatch(c, user, password, legacyKey) ==>
      step.record == Migrated(c, user, password, freshKey) && step.response == IssueToken(step.record)
    ensures Legacy(user) && !LegacyMatch(c, user, password, legacyKey) ==>
      step.record == user && step.response.BadRequest?
    // a wrong password leaves the record as it was
    ensures step.response == BadRequest(Some(WrongPasswordMessage)) ==> step.record == user
  {
    if IsNullOrEmpty(user.passwordHash) then
      LoginStep(BadRequest(Some(InvalidAccountMessage)), user)
    else if IsNullOrEmpty(user.passwordSalt) then
      match c.fromBase64(user.passwordHash.value)
      case Null => LoginStep(BadRequest(Some(LoginErrorMessage)), user)
      case Some(storedHash) =>
        if !VerifyPasswordHashWithoutSalt(c, password, storedHash, legacyKey) then
          LoginStep(BadRequest(Some(WrongPasswordMessage)), user)
        else
          var migrated := Migrated(c, user, password, freshKey);
          LoginStep(IssueToken(migrated), migrated)
    else
      match (c.fromBase64(user.passwordHash.value), c.fromBase64(user.passwordSalt.value))
      case (Some(storedHash), Some(storedSalt)) =>
        if !VerifyPasswordHash(c, password, storedHash, storedSalt) then
          LoginStep(BadRequest(Some(WrongPasswordMessage)), user)
        else
          LoginStep(IssueToken(user), user)
      case _ => LoginStep(BadRequest(Some(LoginErrorMessage)), user)
  }

  // ----- registration -----

  predicate EmailTaken(users: map<Guid, User>, email: string) {
    exists id | id in users :: users[id].email == email
  }

  /** The record `Register` stores. */
  function RegisteredUser(c: Crypto, request: UserDto, id: Guid, key: HmacKey): (user: User)
    ensures user.userId == id && user.name == request.name && user.email == request.email
    ensures user.role == Some(Coalesce(request.role, "User")) && user.courseIds == {}
    ensures Lawful(c) ==> Salted(user) && SaltedMatch(c, user, request.password)
  {
    var h := CreatePasswordHash(c, request.password, key);
    User(id, request.name, request.email, Some(Coalesce(request.role, "User")),
         Some(c.toBase64(h.hash)), Some(c.toBase64(h.salt)), {})
  }

  /** A registered record is salted: its hash and salt are non-empty, and
      the salt decodes to the HMAC key. */
  lemma RegisteredUserIsSalted(c: Crypto, request: UserDto, id: Guid, key: HmacKey)
    requires Lawful(c)
    ensures Salted(RegisteredUser(c, request, id, key))
    ensures c.fromBase64(RegisteredUser(c, request, id, key).passwordSalt.value) == Some(key)
    ensures c.fromBase64(RegisteredUser(c, request, id, key).passwordHash.value) == Some(c.hmac(key, request.password))
    ensures RegisteredUser(c, request, id, key).role == Some(Coalesce(request.role, "User"))
  {
  }

  /** Round trip: the password a record was registered with logs in on the
      salted path, leaves the record as it is, and yields that user's token. */
  lemma RegisteredUserLogsIn(c: Crypto, request: UserDto, id: Guid, key: HmacKey, legacyKey: HmacKey, freshKey: HmacKey)
    requires Lawful(c)
    ensures var user := RegisteredUser(c, request, id, key);
      Authenticate(c, user, request.password, legacyKey, freshKey) == LoginStep(IssueToken(user), user)
    ensures IssueToken(RegisteredUser(c, request, id, key)).Ok?
  {
  }

  /** The migration happens once: after a successful legacy login the record
      is salted, and the same password then logs in on the salted path
      without changing it again, whatever random keys that login draws. */
  lemma MigrationIsOneTime(c: Crypto, user: User, password: string, legacyKey: HmacKey, freshKey: HmacKey,
                           nextLegacyKey: HmacKey, nextFreshKey: HmacKey)
    requires Lawful(c)
    requires Legacy(user) && LegacyMatch(c, user, password, legacyKey)
    ensures var migrated := Authenticate(c, user, password, legacyKey, freshKey).record;
      && Salted(migrated)
      && Authenticate(c, migrated, password, nextLegacyKey, nextFreshKey) == LoginStep(IssueToken(migrated), migrated)
  {
  }

  // ----- the controller -----

  /** `Login` found the record `id` for the request's e-mail, answered `r`
      and saved `users'`. */
  ghost predicate LoggedInAs(c: Crypto, users: map<Guid, User>, id: Guid, request: UserDto,
                             legacyKey: HmacKey, freshKey: HmacKey, r: ActionResult<LoginBody>, users': map<Guid, User>) {
    && id in users && users[id].email == request.email
    && var step := Authenticate(c, users[id], request.password, legacyKey, freshKey);
    && r == step.response
    && users' == users[id := step.record]
  }

  class AuthController {
    const db: AppDbContext
    const crypto: Crypto

    constructor (context: AppDbContext, crypto: Crypto)
      ensures db == context && this.crypto == crypto
    {
      db := context;
      this.crypto := crypto;
    }

    /** POST api/Auth/register. `newId` is the value of `Guid.NewGuid()` and
        `key` the random key of the new HMACSHA512. */
    method Register(request: UserDto, newId: Guid, key: HmacKey) returns (r: ActionResult<string>)
      requires db.Valid() && newId !in db.users
      modifies db`users
      ensures db.Valid()
      ensures EmailTaken(old(db.users), request.email) ==>
        r == BadRequest(Some(UserExistsMessage)) && db.users == old(db.users)
      ensures !EmailTaken(old(db.users), request.email) ==>
        && r == Ok(RegisteredMessage)
        && db.users == old(db.users)[newId := RegisteredUser(crypto, request, newId, key)]
    {
      if EmailTaken(db.users, request.email) {
        return BadRequest(Some(UserExistsMessage));
      }
      // builds the record RegisteredUser describes, field by field
      var h := CreatePasswordHash(crypto, request.password, key);
      var user := User(
        userId := newId,
        name := request.name,
        email := request.email,
        role := Some(Coalesce(request.role, "User")),
        passwordHash := Some(crypto.toBase64(h.hash)),
        passwordSalt := Some(crypto.toBase64(h.salt)),
        courseIds := {});
      db.users := db.users[user.userId := user];
      r := Ok(RegisteredMessage);
    }

    /** POST api/Auth/login. The store is searched with `FirstOrDefault` on
        the e-mail, which does not fix a row when several share it: the
        model takes any of them. `legacyKey` and `freshKey` are the random
        keys of the unsalted verification and of the migration. */
    method Login(request: UserDto, legacyKey: HmacKey, freshKey: HmacKey) returns (r: ActionResult<LoginBody>)
      requires db.Valid()
      modifies db`users
      ensures db.Valid()
      ensures !EmailTaken(old(db.users), request.email) ==>
        r == BadRequest(Some(UserNotFoundMessage)) && db.users == old(db.users)
      ensures EmailTaken(old(db.users), request.email) ==>
        exists id :: LoggedInAs(crypto, old(db.users), id, request, legacyKey, freshKey, r, db.users)
    {
      if !EmailTaken(db.users, request.email) {
        return BadRequest(Some(UserNotFoundMessage));
      }
      // the steps below mirror Authenticate, which the ensures are stated by
      var id :| id in db.users && db.users[id].email == request.email;
      var user := db.users[id];
      if IsNullOrEmpty(user.passwordHash) {
        r := BadRequest(Some(InvalidAccountMessage));
      } else if IsNullOrEmpty(user.passwordSalt) {
        var storedHash := crypto.fromBase64(user.passwordHash.value);
        if storedHash.Null? {
          r := BadRequest(Some(LoginErrorMessage));
        } else if !VerifyPasswordHashWithoutSalt(crypto, request.password, storedHash.value, legacyKey) {
          r := BadRequest(Some(WrongPasswordMessage));
        } else {
          var h := CreatePasswordHash(crypto, request.password, freshKey);
          user := user.(passwordHash := Some(crypto.toBase64(h.hash)), passwordSalt := Some(crypto.toBase64(h.salt)));
          db.users := db.users[id := user];
          r := IssueToken(user);
        }
      } else {
        var storedHash := crypto.fromBase64(user.passwordHash.value);
        var storedSalt := crypto.fromBase64(user.passwordSalt.value);
        if storedHash.Null? || storedSalt.Null? {
          r := BadRequest(Some(LoginErrorMessage));
        } else if !VerifyPasswordHash(crypto, request.password, storedHash.value, storedSalt.value) {
          r := BadRequest(Some(WrongPasswordMessage));
        } else {
          r := IssueToken(user);
        }
      }
      assert LoggedInAs(crypto, old(db.users), id, request, legacyKey, freshKey, r, db.users);
    }
  }

  /** Registering a new e-mail and then logging in with the same password
      succeeds with the token of the registered record. */
  method RegisterThenLogin(c: Crypto, users: map<Guid, User>, request: UserDto, newId: Guid,
                           key: HmacKey, legacyKey: HmacKey, freshKey: HmacKey)
    returns (registered: ActionResult<string>, loggedIn: ActionResult<LoginBody>)
    requires Lawful(c) && UsersKeyed(users)
    requires newId !in users && !EmailTaken(users, request.email)
    ensures registered == Ok(RegisteredMessage)
    ensures loggedIn.Ok?
    ensures loggedIn == IssueToken(RegisteredUser(c, request, newId, key))
    ensures loggedIn.value.user == UserView(newId, request.name, request.email, Coalesce(request.role, "User"))
  {
    var db := new AppDbContext(users, map[], map[], []);
    var auth := new AuthController(db, c);
    registered := auth.Register(request, newId, key);
    ghost var stored := db.users;
    assert stored[newId].email == request.email;
    loggedIn := auth.Login(request, legacyKey, freshKey);
    ghost var id :| LoggedInAs(c, stored, id, request, legacyKey, freshKey, loggedIn, db.users);
    assert id == newId;
    RegisteredUserLogsIn(c, request, newId, key, legacyKey, freshKey);
  }
}
