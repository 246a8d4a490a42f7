/** The authentication routes: student signup (validation, the duplicate
    check, the insert with a hashed password, token issue) and the health
    probe. Password hashing and token signing are opaque parameters. */
module Auth {
  import opened Seqs
  import opened Schema
  import opened Store

  /** The bcrypt cost factor signup hashes with. */
  const BcryptCost := 12
  /** The department every self-registered student is put in. */
  const Department := "Computer Science"
  /** The signing key used when JWT_SECRET is unset or empty. */
  const FallbackSecret := "fallback-secret-key-for-development"
  /** The token lifetime handed to the signer. */
  const TokenLifetime := "7d"

  /** `bcrypt.hash(plaintext, cost)`. */
  type Hasher = (string, int) -> string

  /** The payload a token carries. */
  datatype Claims = Claims(userId: Id)

  /** `jwt.sign(payload, key, { expiresIn })`. */
  type Signer = (Claims, string, string) -> string

  /** The body of `POST /signup`; `levelValue` is what `parseInt(level)`
      gives (`None` for NaN). */
  datatype SignupRequest = SignupRequest(
    name: Option<string>,
    email: Option<string>,
    matricNumber: Option<string>,
    level: Option<string>,
    password: Option<string>,
    studentType: Option<string>,
    phone: Option<string>,
    levelValue: Option<int>)

  /** The columns signup selects from the new row: every public field, and
      no password. */
  datatype Account = Account(
    id: Id,
    name: string,
    email: string,
    matricNumber: Option<string>,
    level: Option<int>,
    studentType: Option<string>,
    role: Role,
    department: Option<string>,
    phone: Option<string>)

  datatype SignupBody = SignupBody(user: Account, token: string)

  datatype HealthBody = HealthBody(success: bool, message: string, timestamp: string, hasJwtSecret: bool)

  const MissingFields := "All fields are required"
  const AlreadyExists := "User already exists with this email or matric number"
  const RegistrationFailed := "Internal server error during registration"

  /** Every required signup field is truthy. */
  predicate SignupComplete(req: SignupRequest) {
    Truthy(req.name) && Truthy(req.email) && Truthy(req.matricNumber) && Truthy(req.level)
    && Truthy(req.password) && Truthy(req.studentType)
  }

  /** Some user already has this email or this matric number. */
  ghost predicate Registered(users: seq<User>, email: string, matric: string) {
    exists u :: u in users && (u.email == email || u.matricNumber == Some(matric))
  }

  /** The request passes validation and neither its email nor its matric
      number is taken. */
  ghost predicate Fresh(users: seq<User>, req: SignupRequest) {
    SignupComplete(req) && !Registered(users, req.email.value, req.matricNumber.value)
  }

  /** `findFirst({ where: { OR: [{ email }, { matricNumber }] } })`. */
  function FindExisting(users: seq<User>, email: string, matric: string): (r: Option<User>)
    ensures r.Some? ==> r.value in users && (r.value.email == email || r.value.matricNumber == Some(matric))
    ensures r.None? <==> !Registered(users, email, matric)
  {
    FindFirst(users, (u: User) => u.email == email || u.matricNumber == Some(matric))
  }

  /** `jwtSecret || 'fallback-secret-key-for-development'`. */
  function SigningKey(env: Env): (key: string)
    ensures Truthy(env.jwtSecret) ==> key == env.jwtSecret.value
    ensures !Truthy(env.jwtSecret) ==> key == FallbackSecret
  {
    OrElse(env.jwtSecret, FallbackSecret)
  }

  /** The public projection of a user row. */
  function AccountOf(u: User): (a: Account)
    ensures a.id == u.id && a.email == u.email && a.matricNumber == u.matricNumber && a.role == u.role
  {
    Account(u.id, u.name, u.email, u.matricNumber, u.level, u.studentType, u.role, u.department, u.phone)
  }

  /** `GET /health`; the clock reading is a parameter. */
  function Health(env: Env, timestamp: string): (r: HealthBody)
    ensures r.success && r.timestamp == timestamp
    ensures r.hasJwtSecret <==> Truthy(env.jwtSecret)
  {
    HealthBody(true, "Auth routes are working!", timestamp, Truthy(env.jwtSecret))
  }

  /** The health probe reports a missing secret exactly when tokens are
      signed with the public fallback key instead of the configured one. */
  lemma HealthReportsKeySource(env: Env, timestamp: string)
    ensures !Health(env, timestamp).hasJwtSecret ==> SigningKey(env) == FallbackSecret
    ensures Health(env, timestamp).hasJwtSecret ==> SigningKey(env) == env.jwtSecret.value
    ensures Health(env, timestamp).hasJwtSecret ==> Truthy(env.jwtSecret)
  {
  }

  /** `POST /signup`. `now` is the database clock stamping `createdAt`. */
  method Signup(db: Database, req: SignupRequest, env: Env, now: int, hash: Hasher, sign: Signer)
    returns (out: Reply<SignupBody>)
    requires db.Valid()
    modifies db
    ensures db.Valid()
    ensures !SignupComplete(req) ==> out == Err(400, MissingFields)
    ensures SignupComplete(req) && Registered(old(db.users), req.email.value, req.matricNumber.value) ==>
      out == Err(400, AlreadyExists)
    ensures Fresh(old(db.users), req) && req.levelValue.None? ==> out == Err(500, RegistrationFailed)
    ensures out.Ok? <==> Fresh(old(db.users), req) && req.levelValue.Some?
    ensures out.Err? ==> unchanged(db)
    ensures out.Ok? ==> |db.users| == |old(db.users)| + 1
    ensures out.Ok? ==>
      var u := db.users[|old(db.users)|];
      && out.status == 201
      && db.Snapshot() == old(db.Snapshot()).(users := old(db.users) + [u], nextId := old(db.nextId) + 1)
      && u.id == old(db.nextId)
      && u.name == req.name.value && u.email == req.email.value
      && u.matricNumber == Some(req.matricNumber.value)
      && u.level == req.levelValue
      && u.password == hash(req.password.value, BcryptCost)
      && u.studentType == Some(req.studentType.value)
      && u.phone == OrNull(req.phone)
      && u.role == Student && u.department == Some(Department)
      && u.profileImage.None? && u.createdAt == now
      && out.body.user == AccountOf(u)
      && out.body.token == sign(Claims(u.id), SigningKey(env), TokenLifetime)
  {
    if !SignupComplete(req) {
      return Err(400, MissingFields);
    }
    var existing := FindExisting(db.users, req.email.value, req.matricNumber.value);
    if existing.Some? {
      return Err(400, AlreadyExists);
    }
    var hashed := hash(req.password.value, BcryptCost);
    if req.levelValue.None? {
      // parseInt gave NaN, which the ORM refuses to store.
      return Err(500, RegistrationFailed);
    }
    var user := User(db.nextId, req.name.value, req.email.value, Some(req.matricNumber.value), req.levelValue,
                     hashed, Some(req.studentType.value), Student, Some(Department), OrNull(req.phone), None, now);
    AddUserKeepsConsistent(db.Snapshot(), user);
    db.users := db.users + [user];
    db.nextId := db.nextId + 1;
    var token := sign(Claims(user.id), SigningKey(env), TokenLifetime);
    out := Ok(201, SignupBody(AccountOf(user), token));
  }

  /** Once a student is stored, any later signup that reuses their email or
      their matric number finds them and is refused. */
  lemma SecondSignupRefused(users: seq<User>, u: User, email: string, matric: string)
    requires u.email == email || u.matricNumber == Some(matric)
    ensures Registered(users + [u], email, matric)
  {
  }
}
