/**
 * Sign-up and sign-in (fast_backend/app/routes/auth_route.py). Both answer
 * with a bearer token whose subject is the user's id.
 */
module AuthRoute {
  import opened Wrappers
  import opened Utils
  import opened UserModel
  import PyText

  datatype UserCreate = UserCreate(username: string, email: string, password: string)
  datatype UserLogin = UserLogin(email: string, password: string)
  datatype SigninResponse = SigninResponse(accessToken: Token, tokenType: string, user: User)

  const EmailExists := HttpError(400, "Email already exists")

  /** One error for an unknown email and for a wrong password. */
  const InvalidCredentials := HttpError(401, "Invalid email or password")

  /** `query(User).filter(User.email == email).first()`: the first user with that email. */
  function FindByEmail(users: seq<User>, email: string): (r: Option<nat>)
    ensures r.Some? ==> r.value < |users| && users[r.value].email == email
    ensures r.Some? ==> forall k :: 0 <= k < r.value ==> users[k].email != email
    ensures r.None? <==> forall k :: 0 <= k < |users| ==> users[k].email != email
  {
    if users == [] then None
    else if users[0].email == email then Some(0)
    else
      match FindByEmail(users[1..], email)
      case None => None
      case Some(k) => Some(k + 1)
  }

  predicate UsernameTaken(users: seq<User>, username: string) {
    exists k :: 0 <= k < |users| && users[k].username == username
  }

  /**
   * The token both routes issue at `now`: `create_access_token({"sub":
   * user.id})`. It names the user until it expires an hour later.
   */
  function TokenFor(u: User, cfg: Config, now: int): (t: Token)
    ensures forall at :: at < now + DefaultExpiresDelta ==> DecodeToken(t, cfg, at) == Ok(PyText.IntStr(u.id))
    ensures forall at :: at >= now + DefaultExpiresDelta ==> DecodeToken(t, cfg, at) == Err(InvalidToken)
  {
    var t := CreateAccessToken(map["sub" := IntClaim(u.id)], cfg, now);
    forall at ensures DecodeToken(t, cfg, at) == if at < now + DefaultExpiresDelta then Ok(PyText.IntStr(u.id)) else Err(InvalidToken) {
      DecodeIssued(map["sub" := IntClaim(u.id)], cfg, now, DefaultExpiresDelta, at);
    }
    t
  }

  /**
   * `signup`: a registered email is refused before anything is written; a
   * new email inserts one user holding the hash of the password. The route
   * checks only the email: a taken username reaches the table's unique
   * constraint, whose IntegrityError the route does not catch.
   */
  method Signup(db: Database, req: UserCreate, salt: string, cfg: Config, now: int)
      returns (r: Result<SigninResponse, HttpError>)
    requires db.Valid()
    modifies db
    ensures db.Valid()
    ensures db.expenses == old(db.expenses) && db.clock == old(db.clock)
    ensures db.nextExpenseId == old(db.nextExpenseId)
    ensures FindByEmail(old(db.users), req.email).Some? ==>
              r == Err(EmailExists) && db.users == old(db.users) && db.nextUserId == old(db.nextUserId)
    ensures FindByEmail(old(db.users), req.email).None? && UsernameTaken(old(db.users), req.username) ==>
              r == Err(IntegrityError) && db.users == old(db.users) && db.nextUserId == old(db.nextUserId)
    ensures FindByEmail(old(db.users), req.email).None? && !UsernameTaken(old(db.users), req.username) ==>
              && r.Ok?
              && r.value.user == User(old(db.nextUserId), req.username, req.email,
                                      HashPassword(req.password, salt),
                                      Timestamps(old(db.clock), old(db.clock)))
              && db.users == old(db.users) + [r.value.user]
              && db.nextUserId == old(db.nextUserId) + 1
    ensures r.Ok? ==> r.value.tokenType == "bearer" && r.value.accessToken == TokenFor(r.value.user, cfg, now)
    ensures r.Ok? ==> VerifyPassword(req.password, r.value.user.hashedPassword)
    ensures r.Ok? ==> FindByEmail(db.users, req.email).Some?
  {
    if FindByEmail(db.users, req.email).Some? {
      return Err(EmailExists);
    }
    if UsernameTaken(db.users, req.username) {
      return Err(IntegrityError);
    }
    var user := User(db.nextUserId, req.username, req.email, HashPassword(req.password, salt),
                     Timestamps(db.clock, db.clock));
    forall v | v in db.users ensures v.username != user.username && v.email != user.email {
      var k :| 0 <= k < |db.users| && db.users[k] == v;
    }
    ConsistentAppendUser(db.users, db.expenses, db.clock, db.nextUserId, db.nextExpenseId, user);
    db.users := db.users + [user];
    db.nextUserId := db.nextUserId + 1;
    assert db.users[|db.users| - 1].email == req.email;
    r := Ok(SigninResponse(TokenFor(user, cfg, now), "bearer", user));
  }

  /**
   * `signin`: reads the users table and writes nothing. An unknown email
   * and a wrong password give the same `InvalidCredentials`.
   */
  method Signin(db: Database, req: UserLogin, cfg: Config, now: int) returns (r: Result<SigninResponse, HttpError>)
    requires db.Valid()
    ensures r.Err? ==> r.error == InvalidCredentials
    ensures var found := FindByEmail(db.users, req.email);
            r.Err? <==> found.None? || !VerifyPassword(req.password, db.users[found.value].hashedPassword)
    ensures r.Ok? ==> && FindByEmail(db.users, req.email).Some?
                      && r.value.user == db.users[FindByEmail(db.users, req.email).value]
                      && r.value.user in db.users && r.value.user.email == req.email
                      && VerifyPassword(req.password, r.value.user.hashedPassword)
                      && r.value.tokenType == "bearer"
                      && r.value.accessToken == TokenFor(r.value.user, cfg, now)
  {
    var found := FindByEmail(db.users, req.email);
    if found.None? || !VerifyPassword(req.password, db.users[found.value].hashedPassword) {
      return Err(InvalidCredentials);
    }
    var user := db.users[found.value];
    r := Ok(SigninResponse(TokenFor(user, cfg, now), "bearer", user));
  }

  /** A second sign-up with an email that a first one registered is always refused. */
  method SignupTwice(db: Database, first: UserCreate, second: UserCreate, salt1: string, salt2: string,
                     cfg: Config, now: int) returns (r1: Result<SigninResponse, HttpError>, r2: Result<SigninResponse, HttpError>)
    requires db.Valid()
    requires second.email == first.email
    modifies db
    ensures db.Valid()
    ensures r1.Ok? ==> r2 == Err(EmailExists)
    ensures r2.Ok? ==> r1.Err?
  {
    r1 := Signup(db, first, salt1, cfg, now);
    r2 := Signup(db, second, salt2, cfg, now);
  }
}
