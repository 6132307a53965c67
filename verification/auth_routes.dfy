/** The password-account routes: register, login and the guarded `/me`. Password
    hashing and hash comparison are functions the caller supplies; a failing
    database is the `storeUp` flag. */
module AuthRoutes {

  import opened Optional
  import opened Tokens
  import opened Http
  import opened Users
  import AuthGuard

  const DuplicateEmailText := "此 Email 已經被註冊"
  const ServerErrorText := "伺服器內部錯誤"
  const CredentialsRequiredText := "Email 和密碼為必填"
  const BadCredentialsText := "Email 或密碼錯誤"
  const LoginErrorText := "登入時發生錯誤"
  const ProtectedText := "你已成功存取受保護的路由"

  /** The JSON body of `POST /register`; a field is `None` when absent. */
  datatype RegisterRequest = RegisterRequest(email: Option<string>, password: Option<string>, name: Option<string>)

  /** The JSON body of `POST /login`. */
  datatype LoginRequest = LoginRequest(email: Option<string>, password: Option<string>)

  /** `POST /register`. There is no missing-field check: the whole handler sits in one
      try block, so an absent email (the unique lookup rejects it) or, for a new
      email, an absent password (hashing rejects it) ends in 500, like a failing
      database. The lookup comes first, so a taken email answers 409 whatever the
      password. Returns the response and the user table afterwards. */
  function Register(users: seq<User>, storeUp: bool, hash: string -> string, req: RegisterRequest)
    : (out: (Response, seq<User>))
    ensures out.0.status in {201, 409, 500}
    ensures out.0.status == 409 <==> storeUp && req.email.Some? && HasEmail(users, req.email.value)
    ensures out.0.status == 409 ==> out.0.body == Message("此 Email 已經被註冊")
    ensures out.0.status == 500 ==> out.0.body == MessageWithError("伺服器內部錯誤")
    ensures out.0.status == 201 <==>
      storeUp && req.email.Some? && req.password.Some? && !HasEmail(users, req.email.value)
    ensures out.0.status != 201 ==> out.1 == users
    ensures out.0.status == 201 ==>
      && |out.1| == |users| + 1
      && out.1[..|users|] == users
      && var u := out.1[|users|];
      && u.email == req.email.value
      && u.name == req.name
      && u.passwordHash == hash(req.password.value)
      && u.id !in UserIds(users)
      && out.0.body == Account(u.id, u.email, u.name, Token(Claims(u.id, None), 3600))
    ensures ValidStore(users) ==> ValidStore(out.1)
  {
    if !storeUp || req.email.None? then
      (Response(500, MessageWithError(ServerErrorText)), users)
    else
      match FindByEmail(users, req.email.value)
      case Some(_) => (Response(409, Message(DuplicateEmailText)), users)
      case None =>
        if req.password.None? then
          (Response(500, MessageWithError(ServerErrorText)), users)
        else
          var (u, users') := CreateUser(users, req.email.value, hash(req.password.value), req.name);
          assert users'[..|users|] == users;
          (Response(201, Account(u.id, u.email, u.name, RegistrationToken(u.id))), users')
  }

  /** `POST /login`. Missing or empty credentials answer 400 before any lookup; an
      unknown email and a wrong password answer the same 401; success answers 200
      with the token and the user's public fields. */
  function Login(users: seq<User>, storeUp: bool, compare: (string, string) -> bool, req: LoginRequest)
    : (resp: Response)
    ensures resp.status in {200, 400, 401, 500}
    ensures resp.status == 400 <==> !Truthy(req.email) || !Truthy(req.password)
    ensures resp.status == 400 ==> resp.body == Message("Email 和密碼為必填")
    ensures resp.status == 500 <==> Truthy(req.email) && Truthy(req.password) && !storeUp
    ensures resp.status == 500 ==> resp.body == Message("登入時發生錯誤")
    ensures resp.status == 401 ==> resp.body == Message("Email 或密碼錯誤")
    ensures resp.status == 200 <==>
      && Truthy(req.email) && Truthy(req.password) && storeUp
      && var found := FindByEmail(users, req.email.value);
      && found.Some? && compare(req.password.value, found.value.passwordHash)
    ensures resp.status == 200 ==>
      var u := FindByEmail(users, req.email.value).value;
      && u in users && u.email == req.email.value
      && compare(req.password.value, u.passwordHash)
      && resp.body == Account(u.id, u.email, u.name, Token(Claims(u.id, Some(u.email)), 86400))
  {
    if !Truthy(req.email) || !Truthy(req.password) then
      Response(400, Message(CredentialsRequiredText))
    else if !storeUp then
      Response(500, Message(LoginErrorText))
    else
      match FindByEmail(users, req.email.value)
      case None => Response(401, Message(BadCredentialsText))
      case Some(u) =>
        if !compare(req.password.value, u.passwordHash) then
          Response(401, Message(BadCredentialsText))
        else
          Response(200, Account(u.id, u.email, u.name, SessionToken(u.id, u.email)))
  }

  /** An unknown email and a wrong password cannot be told apart: both give exactly
      the same response. */
  lemma UnknownEmailLooksLikeWrongPassword(
    users: seq<User>, compare: (string, string) -> bool, email: string, password: string, k: nat)
    requires ValidStore(users) && k < |users|
    requires email != "" && users[k].email != "" && password != "" && !HasEmail(users, email)
    requires !compare(password, users[k].passwordHash)
    ensures Login(users, true, compare, LoginRequest(Some(email), Some(password)))
         == Login(users, true, compare, LoginRequest(Some(users[k].email), Some(password)))
         == Response(401, Message("Email 或密碼錯誤"))
  {
  }

  /** Registering and then logging in with the same password succeeds, provided the
      comparison accepts a password against its own hash; the login answers with the
      registered user's identity and a one-day session token, and no hash. */
  lemma RegisterThenLogin(
    users: seq<User>, hash: string -> string, compare: (string, string) -> bool,
    email: string, password: string, name: Option<string>)
    requires ValidStore(users) && !HasEmail(users, email)
    requires email != "" && password != ""
    requires compare(password, hash(password))
    ensures
      var reg := Register(users, true, hash, RegisterRequest(Some(email), Some(password), name));
      && reg.0.status == 201
      && Login(reg.1, true, compare, LoginRequest(Some(email), Some(password)))
         == Response(200, Account(reg.0.body.id, email, name, Token(Claims(reg.0.body.id, Some(email)), 86400)))
  {
  }

  /** An account registered with an empty password is created, but can never log
      in: login refuses an empty password with 400 before any lookup. */
  lemma EmptyPasswordAccountIsLockedOut(
    users: seq<User>, hash: string -> string, compare: (string, string) -> bool,
    email: string, name: Option<string>, storeUp: bool)
    requires !HasEmail(users, email)
    ensures
      var reg := Register(users, true, hash, RegisterRequest(Some(email), Some(""), name));
      && reg.0.status == 201
      && Login(reg.1, storeUp, compare, LoginRequest(Some(email), Some(""))).status == 400
  {
  }

  /** `GET /me` behind the gate: the fixed message when the gate passes the request,
      the gate's rejection otherwise. The handler does not read the user table. */
  function Me(header: Option<string>, secret: string, verify: (string, string) -> bool)
    : (resp: Response)
    ensures resp.status == 200 <==> AuthGuard.Authenticate(header, secret, verify).Next?
    ensures resp.status == 200 ==> resp.body == Message("你已成功存取受保護的路由")
    ensures resp.status != 200 ==>
      resp.status in {401, 403} && resp.body.Message? &&
      AuthGuard.Authenticate(header, secret, verify) == AuthGuard.Reject(resp.status, resp.body.text)
  {
    match AuthGuard.Authenticate(header, secret, verify)
    case Next => Response(200, Message(ProtectedText))
    case Reject(status, message) => Response(status, Message(message))
  }
}
