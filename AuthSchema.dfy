/** The request bodies accepted by signup and login. The library's e-mail
    check is the parameter `isEmail`. */
module AuthSchema {
  import opened Common
  import opened Json

  datatype SignupRequest = SignupRequest(
    name: string, email: string, password: string, role: Option<Role>, phone: Option<string>)

  datatype LoginRequest = LoginRequest(email: string, password: string)

  const SignupKeys: set<string> := {"name", "email", "password", "role", "phone"}
  const LoginKeys: set<string> := {"email", "password"}

  function RoleName(r: Role): string {
    match r
    case Customer => "customer"
    case Owner => "owner"
  }

  /** `z.enum(['customer', 'owner'])`. */
  function RoleFromName(s: string): (r: Option<Role>)
    ensures r.Some? <==> s == "customer" || s == "owner"
    ensures r.Some? ==> RoleName(r.value) == s
  {
    if s == "customer" then Some(Customer) else if s == "owner" then Some(Owner) else None
  }

  predicate SignupConforms(body: Json, isEmail: string -> bool) {
    && body.JObj?
    && IsString(body.fields, "name", 1)
    && IsString(body.fields, "email", 0) && isEmail(body.fields["email"].s)
    && IsString(body.fields, "password", 6)
    && ("role" !in body.fields
        || (body.fields["role"].JStr? && RoleFromName(body.fields["role"].s).Some?))
    && IsOptString(body.fields, "phone")
  }

  predicate SignupWellFormed(req: SignupRequest, isEmail: string -> bool) {
    req.name != [] && isEmail(req.email) && |req.password| >= 6
  }

  function SignupJson(req: SignupRequest): Json {
    JObj(map["name" := JStr(req.name), "email" := JStr(req.email), "password" := JStr(req.password)]
         + OptMember("role", if req.role.Some? then Some(JStr(RoleName(req.role.value))) else None)
         + OptMember("phone", OptStr(req.phone)))
  }

  /** `signupSchema.safeParse(body)`. */
  function ParseSignup(body: Json, isEmail: string -> bool): (r: Option<SignupRequest>)
    ensures r.Some? <==> SignupConforms(body, isEmail)
    ensures r.Some? ==>
      SignupWellFormed(r.value, isEmail) && Restrict(body.fields, SignupKeys) == SignupJson(r.value).fields
  {
    if !SignupConforms(body, isEmail) then None
    else
      var f := body.fields;
      var role := if "role" in f then RoleFromName(f["role"].s) else None;
      var req := SignupRequest(f["name"].s, f["email"].s, f["password"].s, role, OptStringAt(f, "phone"));
      SignupRestrict(f, req);
      Some(req)
  }

  /** The declared members of a conforming body are those of the request read from it. */
  lemma SignupRestrict(f: map<string, Json>, req: SignupRequest)
    requires "name" in f && f["name"] == JStr(req.name)
    requires "email" in f && f["email"] == JStr(req.email)
    requires "password" in f && f["password"] == JStr(req.password)
    requires "role" in f <==> req.role.Some?
    requires req.role.Some? ==> f["role"] == JStr(RoleName(req.role.value))
    requires "phone" in f <==> req.phone.Some?
    requires req.phone.Some? ==> f["phone"] == JStr(req.phone.value)
    ensures Restrict(f, SignupKeys) == SignupJson(req).fields
  {
    var m := Restrict(f, SignupKeys);
    var j := SignupJson(req).fields;
    SignupJsonMembers(req);
    forall k ensures k in m <==> k in j {
      if k !in SignupKeys {
        assert k !in m && k !in j;
      }
    }
    assert m.Keys == j.Keys;
    forall k | k in m ensures m[k] == j[k] {
      assert m[k] == f[k];
    }
  }

  /** The members of a request's JSON, one by one. */
  lemma SignupJsonMembers(req: SignupRequest)
    ensures var j := SignupJson(req).fields;
      && "name" in j && j["name"] == JStr(req.name)
      && "email" in j && j["email"] == JStr(req.email)
      && "password" in j && j["password"] == JStr(req.password)
      && ("role" in j <==> req.role.Some?)
      && (req.role.Some? ==> j["role"] == JStr(RoleName(req.role.value)))
      && ("phone" in j <==> req.phone.Some?)
      && (req.phone.Some? ==> j["phone"] == JStr(req.phone.value))
      && j.Keys <= SignupKeys
  {
  }

  lemma ParseSignupJson(req: SignupRequest, isEmail: string -> bool)
    requires SignupWellFormed(req, isEmail)
    ensures ParseSignup(SignupJson(req), isEmail) == Some(req)
  {
    SignupJsonMembers(req);
    if req.role.Some? {
      assert RoleFromName(RoleName(req.role.value)) == req.role;
    }
    assert SignupConforms(SignupJson(req), isEmail);
  }

  predicate LoginConforms(body: Json, isEmail: string -> bool) {
    && body.JObj?
    && IsString(body.fields, "email", 0) && isEmail(body.fields["email"].s)
    && IsString(body.fields, "password", 1)
  }

  predicate LoginWellFormed(req: LoginRequest, isEmail: string -> bool) {
    isEmail(req.email) && req.password != []
  }

  function LoginJson(req: LoginRequest): Json {
    JObj(map["email" := JStr(req.email), "password" := JStr(req.password)])
  }

  /** `loginSchema.safeParse(body)`. */
  function ParseLogin(body: Json, isEmail: string -> bool): (r: Option<LoginRequest>)
    ensures r.Some? <==> LoginConforms(body, isEmail)
    ensures r.Some? ==>
      LoginWellFormed(r.value, isEmail) && Restrict(body.fields, LoginKeys) == LoginJson(r.value).fields
  {
    if !LoginConforms(body, isEmail) then None
    else
      var f := body.fields;
      var req := LoginRequest(f["email"].s, f["password"].s);
      assert Restrict(f, LoginKeys) == LoginJson(req).fields;
      Some(req)
  }

  lemma ParseLoginJson(req: LoginRequest, isEmail: string -> bool)
    requires LoginWellFormed(req, isEmail)
    ensures ParseLogin(LoginJson(req), isEmail) == Some(req)
  {
    assert LoginConforms(LoginJson(req), isEmail);
  }
}
