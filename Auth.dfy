/** Sign-up and log-in. The password hash, the password comparison and the
    token signature are the parameters `hash`, `matches` and `sign`; the
    e-mail check of the schemas is `isEmail`. */
module Auth {
  import opened Common
  import opened Json
  import opened Entities
  import opened Tables
  import opened Store
  import opened AuthSchema

  // ---- signup ----

  /** The account returned by signup: the stored row without its password hash. */
  datatype Account = Account(id: string, name: string, email: string, role: Role, phone: Option<string>)

  function AccountOf(u: User): Account {
    Account(u.id, u.name, u.email, u.role, u.phone)
  }

  /** The decision of `signup`: the schema, then a free e-mail, then the new
      row, which stores the hash of the password, `customer` when no role was
      given and null for an absent or empty phone. */
  function SignupOutcome(users: seq<User>, body: Json, isEmail: string -> bool, hash: string -> string,
                         id: string): (r: Response<User>)
    ensures ParseSignup(body, isEmail).None? ==> r == Err(InvalidRequest, 400)
    ensures ParseSignup(body, isEmail).Some? ==>
      var req := ParseSignup(body, isEmail).value;
      && (Find(users, UserEmail, req.email).Some? <==> r == Err(EmailAlreadyExists, 400))
      && (Find(users, UserEmail, req.email).None? <==> r.Ok?)
    ensures r.Ok? ==>
      var req := ParseSignup(body, isEmail).value;
      && r.status == 201
      && r.data.id == id && r.data.name == req.name && r.data.email == req.email
      && r.data.passwordHash == hash(req.password)
      && r.data.role == (if req.role.Some? then req.role.value else Customer)
      && r.data.phone == OrNull(req.phone)
  {
    match ParseSignup(body, isEmail)
    case None => Err(InvalidRequest, 400)
    case Some(req) =>
      if Find(users, UserEmail, req.email).Some? then Err(EmailAlreadyExists, 400)
      else
        var role := if req.role.Some? then req.role.value else Customer;
        Ok(User(id, req.name, req.email, hash(req.password), role, OrNull(req.phone)), 201)
  }

  /** `signup`: a rejection changes nothing; success appends the decided row
      and answers with its account. */
  method Signup(db: Db, body: Json, isEmail: string -> bool, hash: string -> string, uuid: string)
    returns (resp: Response<Account>)
    requires db.Valid()
    requires Find(db.users, UserId, "usr_" + uuid).None?
    modifies db`users
    ensures db.Valid()
    ensures var r := SignupOutcome(old(db.users), body, isEmail, hash, "usr_" + uuid);
      && (r.Ok? ==> resp == Ok(AccountOf(r.data), 201) && db.users == old(db.users) + [r.data])
      && (r.Err? ==> resp == Err(r.code, r.status) && db.users == old(db.users))
  {
    var r := SignupOutcome(db.users, body, isEmail, hash, "usr_" + uuid);
    if r.Err? {
      return Err(r.code, r.status);
    }
    DistinctAppend(db.users, UserId, r.data);
    DistinctAppend(db.users, UserEmail, r.data);
    db.users := db.users + [r.data];
    resp := Ok(AccountOf(r.data), 201);
  }

  /** Once an e-mail has signed up, signing up with it again is refused. */
  lemma SecondSignupRefused(users: seq<User>, body: Json, body': Json, isEmail: string -> bool,
                            hash: string -> string, id: string, id': string)
    requires SignupOutcome(users, body, isEmail, hash, id).Ok?
    requires ParseSignup(body', isEmail).Some?
    requires ParseSignup(body', isEmail).value.email == ParseSignup(body, isEmail).value.email
    ensures var u := SignupOutcome(users, body, isEmail, hash, id).data;
      SignupOutcome(users + [u], body', isEmail, hash, id') == Err(EmailAlreadyExists, 400)
  {
    var u := SignupOutcome(users, body, isEmail, hash, id).data;
    assert (users + [u])[|users|] == u;
  }

  // ---- login ----

  /** The user shown by login. */
  datatype Profile = Profile(id: string, name: string, email: string, role: Role)

  datatype Session = Session(token: string, user: Profile)

  /** The decision of `login`: the schema, then the user with that e-mail, then
      the password comparison; an unknown e-mail and a wrong password give the
      same answer. The token is signed over exactly the user's id and role. */
  function LoginOutcome(users: seq<User>, body: Json, isEmail: string -> bool,
                        matches: (string, string) -> bool, sign: Identity -> string): (r: Response<Session>)
    ensures ParseLogin(body, isEmail).None? ==> r == Err(InvalidRequest, 400)
    ensures ParseLogin(body, isEmail).Some? ==>
      var req := ParseLogin(body, isEmail).value;
      var i := Find(users, UserEmail, req.email);
      && (i.None? ==> r == Err(InvalidCredentials, 401))
      && (i.Some? && !matches(req.password, users[i.value].passwordHash) ==> r == Err(InvalidCredentials, 401))
      && (r.Ok? <==> i.Some? && matches(req.password, users[i.value].passwordHash))
      && (r.Ok? ==>
            var u := users[i.value];
            r == Ok(Session(sign(Identity(u.id, u.role)), Profile(u.id, u.name, u.email, u.role)), 200))
  {
    match ParseLogin(body, isEmail)
    case None => Err(InvalidRequest, 400)
    case Some(req) =>
      match Find(users, UserEmail, req.email)
      case None => Err(InvalidCredentials, 401)
      case Some(i) =>
        var u := users[i];
        if !matches(req.password, u.passwordHash) then Err(InvalidCredentials, 401)
        else Ok(Session(sign(Identity(u.id, u.role)), Profile(u.id, u.name, u.email, u.role)), 200)
  }

  /** `login` reads the users and changes nothing. */
  method Login(db: Db, body: Json, isEmail: string -> bool, matches: (string, string) -> bool,
               sign: Identity -> string) returns (resp: Response<Session>)
    ensures resp == LoginOutcome(db.users, body, isEmail, matches, sign)
  {
    resp := LoginOutcome(db.users, body, isEmail, matches, sign);
  }

  /** A failed login does not tell an unknown e-mail from a wrong password:
      every well-formed request that does not succeed gets the same answer. */
  lemma LoginFailureIsUniform(users: seq<User>, body: Json, isEmail: string -> bool,
                              matches: (string, string) -> bool, sign: Identity -> string)
    requires ParseLogin(body, isEmail).Some?
    ensures var r := LoginOutcome(users, body, isEmail, matches, sign);
      r.Ok? || r == Err(InvalidCredentials, 401)
  {
  }

  /** Sign-up followed by log-in with the same e-mail and password succeeds, for
      a password comparison that accepts a password against its own hash, and
      the token carries the new user's id and role. */
  lemma SignupThenLogin(users: seq<User>, body: Json, isEmail: string -> bool, hash: string -> string,
                        id: string, matches: (string, string) -> bool, sign: Identity -> string)
    requires Distinct(users, UserEmail)
    requires SignupOutcome(users, body, isEmail, hash, id).Ok?
    requires forall p :: matches(p, hash(p))
    ensures var req := ParseSignup(body, isEmail).value;
      var u := SignupOutcome(users, body, isEmail, hash, id).data;
      var r := LoginOutcome(users + [u], LoginJson(LoginRequest(req.email, req.password)), isEmail, matches, sign);
      && r.Ok?
      && r.data.token == sign(Identity(id, u.role))
      && r.data.user == Profile(id, req.name, req.email, u.role)
  {
    var req := ParseSignup(body, isEmail).value;
    var u := SignupOutcome(users, body, isEmail, hash, id).data;
    ParseLoginJson(LoginRequest(req.email, req.password), isEmail);
    DistinctAppend(users, UserEmail, u);
    FindUnique(users + [u], UserEmail, req.email, |users|);
  }
}
