/** The authentication controller: `registerUser`, `loginUser`,
    `refreshAccessToken` and `logoutUser`. Each handler is specified by a
    function from the users collection before the request to the reply and
    the collection after it (`Register`, `Login`, `Refresh`, `Logout`); the
    class `AuthService` holds the collection as a field and implements the
    handlers as methods that look a user up, update its `refreshToken` field
    and save it, proved to agree with those functions. */
module AuthController {
  import opened Wrappers
  import opened Strings
  import opened Token
  import opened UserModel

  /** `req.body` of `POST /auth/register`. */
  datatype RegisterBody = RegisterBody(name: Field<string>, email: Field<string>, password: Field<string>)

  /** `req.body` of `POST /auth/login`. */
  datatype LoginBody = LoginBody(email: Field<string>, password: Field<string>)

  /** Every response the four handlers send. */
  datatype Reply =
    | Registered(id: UserId, user: User)
    | RegisterError
    | LoginSuccessful(accessToken: Token, refreshToken: Token)
    | UserNotFound
    | InvalidCredentials
    | RefreshTokenRequired
    | InvalidRefreshToken
    | AccessTokenRefreshed(accessToken: Token)
    | LoggedOut
    | ServerError
  {
    /** The HTTP status code of the response. */
    function Status(): int {
      match this
      case Registered(_, _) => 201
      case RegisterError => 500
      case LoginSuccessful(_, _) => 200
      case UserNotFound => 400
      case InvalidCredentials => 400
      case RefreshTokenRequired => 401
      case InvalidRefreshToken => 403
      case AccessTokenRefreshed(_) => 200
      case LoggedOut => 200
      case ServerError => 500
    }

    /** The `message` field of the JSON body, where the handler sends one. */
    function Message(): string {
      match this
      case Registered(_, _) => "User registered successfully"
      case RegisterError => "Error registering user"
      case LoginSuccessful(_, _) => "Login successful"
      case UserNotFound => "User not found"
      case InvalidCredentials => "Invalid credentials"
      case RefreshTokenRequired => "Refresh token required"
      case InvalidRefreshToken => "Invalid refresh token"
      case AccessTokenRefreshed(_) => ""
      case LoggedOut => "Logged out successfully"
      case ServerError => ""
    }
  }

  /** The reply to one request and the collection after it. */
  datatype Step = Step(reply: Reply, users: Users)

  /** `!refreshToken` in JavaScript for the body field: missing, `null` or the
      empty string. */
  predicate IsFalsy(f: Field<Token>) {
    !f.Given? || f.value == Malformed("")
  }

  /** The result of a `findOne` whose filter value is `undefined`: how Mongoose
      treats such a filter is library behaviour, so the model takes the user it
      returns as the input `undefinedMatch` (ignored unless it names a user). */
  function UndefinedLookup(users: Users, undefinedMatch: Option<UserId>): (r: Option<UserId>)
    ensures r.Some? ==> r.value in users
  {
    if undefinedMatch.Some? && undefinedMatch.value in users then undefinedMatch else None
  }

  /** The user `User.findOne({ email })` returns for the login body's email; a
      `null` email matches nobody, since every stored user has one. */
  ghost function LoginLookup(users: Users, email: Field<string>, undefinedMatch: Option<UserId>): (r: Option<UserId>)
    ensures r.Some? ==> r.value in users
    ensures email.Given? ==> r == FindByEmail(users, email.value)
    ensures email.Null? ==> r.None?
  {
    match email
    case Absent => UndefinedLookup(users, undefinedMatch)
    case Null => None
    case Given(e) => FindByEmail(users, e)
  }

  /** The user `User.findOne({ refreshToken })` returns for the logout body. */
  ghost function LogoutLookup(users: Users, token: Field<Token>, undefinedMatch: Option<UserId>): (r: Option<UserId>)
    ensures r.Some? ==> r.value in users
    ensures token.Given? ==> r == FindByRefreshToken(users, Some(token.value))
    ensures token.Null? ==> r == FindByRefreshToken(users, None)
  {
    match token
    case Absent => UndefinedLookup(users, undefinedMatch)
    case Null => FindByRefreshToken(users, None)
    case Given(t) => FindByRefreshToken(users, Some(t))
  }

  /** `registerUser`: hash the password with the drawn `salt`, then
      `User.create` with `_id` `id`. A missing password makes `bcrypt.hash`
      throw; that and every rejected insert answer 500. */
  ghost function Register(h: Hasher, users: Users, body: RegisterBody, id: UserId, salt: string): (s: Step)
    ensures s.reply.Registered? || s.reply.RegisterError?
    ensures s.reply.Registered? <==>
      body.password.Given? && CreateUser(users, id, body.name, body.email, h.hash(body.password.value, salt)).Some?
    ensures s.reply.Registered? ==>
      s.reply.user == CreateUser(users, id, body.name, body.email, h.hash(body.password.value, salt)).value
    ensures s.reply.Registered? ==>
      id !in users && s.reply.id == id && s.users == users[id := s.reply.user]
      && s.reply.user.password == h.hash(body.password.value, salt)
      && s.reply.user.email == Lower(body.email.value)
      && s.reply.user.refreshToken == None
    ensures s.reply.RegisterError? ==> s.users == users
  {
    if !body.password.Given? then Step(RegisterError, users)
    else
      var created := CreateUser(users, id, body.name, body.email, h.hash(body.password.value, salt));
      if created.Some? then Step(Registered(id, created.value), users[id := created.value])
      else Step(RegisterError, users)
  }

  /** `loginUser` at second `now`. */
  ghost function Login(sec: Secrets, h: Hasher, users: Users, body: LoginBody, undefinedMatch: Option<UserId>, now: int): (s: Step)
    ensures s.reply.LoginSuccessful? || s.reply.UserNotFound? || s.reply.InvalidCredentials? || s.reply.ServerError?
    ensures s.reply.UserNotFound? <==> LoginLookup(users, body.email, undefinedMatch).None?
    ensures s.reply.ServerError? <==> LoginLookup(users, body.email, undefinedMatch).Some? && !body.password.Given?
    ensures s.reply.InvalidCredentials? <==>
      var found := LoginLookup(users, body.email, undefinedMatch);
      found.Some? && body.password.Given? && !h.compare(body.password.value, users[found.value].password)
    ensures !s.reply.LoginSuccessful? ==> s.users == users
    ensures s.reply.LoginSuccessful? ==> s.reply.refreshToken.Jwt?
    ensures s.reply.LoginSuccessful? ==>
      var id := s.reply.refreshToken.id;
      LoginLookup(users, body.email, undefinedMatch) == Some(id)
      && s.reply.accessToken == GenerateAccessToken(sec, id, now)
      && s.reply.refreshToken == GenerateRefreshToken(sec, id, now)
      && s.users == users[id := users[id].(refreshToken := Some(s.reply.refreshToken))]
  {
    match LoginLookup(users, body.email, undefinedMatch)
    case None => Step(UserNotFound, users)
    case Some(id) =>
      if !body.password.Given? then Step(ServerError, users)
      else if !h.compare(body.password.value, users[id].password) then Step(InvalidCredentials, users)
      else
        var refresh := GenerateRefreshToken(sec, id, now);
        Step(LoginSuccessful(GenerateAccessToken(sec, id, now), refresh),
             users[id := users[id].(refreshToken := Some(refresh))])
  }

  /** `refreshAccessToken` at second `now`. The collection never changes. */
  ghost function Refresh(sec: Secrets, users: Users, token: Field<Token>, now: int): (s: Step)
    ensures s.users == users
    ensures s.reply.RefreshTokenRequired? || s.reply.InvalidRefreshToken? || s.reply.AccessTokenRefreshed?
    ensures s.reply.RefreshTokenRequired? <==> IsFalsy(token)
    ensures s.reply.AccessTokenRefreshed? <==>
      !IsFalsy(token) && FindByRefreshToken(users, Some(token.value)).Some?
      && Verify(token.value, sec.refresh, now).Some?
    ensures s.reply.AccessTokenRefreshed? ==>
      var id := FindByRefreshToken(users, Some(token.value)).value;
      users[id].refreshToken == Some(token.value) && s.reply.accessToken == GenerateAccessToken(sec, id, now)
  {
    if IsFalsy(token) then Step(RefreshTokenRequired, users)
    else match FindByRefreshToken(users, Some(token.value))
      case None => Step(InvalidRefreshToken, users)
      case Some(id) =>
        if Verify(token.value, sec.refresh, now).None? then Step(InvalidRefreshToken, users)
        else Step(AccessTokenRefreshed(GenerateAccessToken(sec, id, now)), users)
  }

  /** `logoutUser`: always 200; the user the lookup finds, if any, has its slot
      cleared, and nothing else changes. */
  ghost function Logout(users: Users, token: Field<Token>, undefinedMatch: Option<UserId>): (s: Step)
    ensures s.reply == LoggedOut
    ensures s.users.Keys == users.Keys
    ensures forall id :: id in users ==>
      s.users[id] == (if LogoutLookup(users, token, undefinedMatch) == Some(id) then users[id].(refreshToken := None) else users[id])
  {
    match LogoutLookup(users, token, undefinedMatch)
    case None => Step(LoggedOut, users)
    case Some(id) => Step(LoggedOut, users[id := users[id].(refreshToken := None)])
  }

  /** The users collection with the four handlers. */
  class AuthService {
    const secrets: Secrets
    const hasher: Hasher
    var users: Users

    ghost predicate Valid()
      reads this
    {
      StoreInvariant(users)
    }

    /** An empty collection under the given configuration. */
    constructor (secrets: Secrets, hasher: Hasher)
      ensures Valid()
      ensures this.secrets == secrets && this.hasher == hasher && users == map[]
    {
      this.secrets := secrets;
      this.hasher := hasher;
      users := map[];
    }

    method RegisterUser(body: RegisterBody, id: UserId, salt: string) returns (reply: Reply)
      requires Valid()
      modifies this
      ensures Valid()
      ensures Step(reply, users) == Register(hasher, old(users), body, id, salt)
    {
      if !body.password.Given? {
        return RegisterError;
      }
      var hashed := hasher.hash(body.password.value, salt);
      var created := CreateUser(users, id, body.name, body.email, hashed);
      if created.None? {
        return RegisterError;
      }
      CreatePreservesInvariant(users, id, body.name, body.email, hashed);
      users := users[id := created.value];
      reply := Registered(id, created.value);
    }

    method LoginUser(body: LoginBody, undefinedMatch: Option<UserId>, now: int) returns (reply: Reply)
      requires Valid()
      modifies this
      ensures Valid()
      ensures Step(reply, users) == Login(secrets, hasher, old(users), body, undefinedMatch, now)
    {
      var id: UserId;
      match body.email {
        case Absent =>
          var found := UndefinedLookup(users, undefinedMatch);
          if found.None? {
            return UserNotFound;
          }
          id := found.value;
        case Null =>
          return UserNotFound;
        case Given(e) =>
          var key := Lower(e);
          if !exists j :: j in users && users[j].email == key {
            return UserNotFound;
          }
          id :| id in users && users[id].email == key;
          EmailLookupUnique(users, e, id);
      }
      var user := users[id];
      if !body.password.Given? {
        return ServerError;
      }
      if !hasher.compare(body.password.value, user.password) {
        return InvalidCredentials;
      }
      var accessToken := GenerateAccessToken(secrets, id, now);
      var refreshToken := GenerateRefreshToken(secrets, id, now);
      user := user.(refreshToken := Some(refreshToken));
      SetTokenPreservesInvariant(users, id, Some(refreshToken));
      users := users[id := user];
      reply := LoginSuccessful(accessToken, refreshToken);
    }

    method RefreshAccessToken(token: Field<Token>, now: int) returns (reply: Reply)
      requires Valid()
      ensures Step(reply, users) == Refresh(secrets, users, token, now)
    {
      if IsFalsy(token) {
        return RefreshTokenRequired;
      }
      var t := token.value;
      if !exists j :: j in users && users[j].refreshToken == Some(t) {
        return InvalidRefreshToken;
      }
      var id :| id in users && users[id].refreshToken == Some(t);
      TokenLookupUnique(users, t, id);
      if Verify(t, secrets.refresh, now).None? {
        return InvalidRefreshToken;
      }
      reply := AccessTokenRefreshed(GenerateAccessToken(secrets, id, now));
    }

    method LogoutUser(token: Field<Token>, undefinedMatch: Option<UserId>) returns (reply: Reply)
      requires Valid()
      modifies this
      ensures Valid()
      ensures Step(reply, users) == Logout(old(users), token, undefinedMatch)
    {
      var found: Option<UserId>;
      match token {
        case Absent =>
          found := UndefinedLookup(users, undefinedMatch);
        case Null =>
          found := None;
          if exists j :: j in users && users[j].refreshToken == None {
            var id :| id in users && users[id].refreshToken == None;
            found := Some(id);
          }
        case Given(t) =>
          found := None;
          if exists j :: j in users && users[j].refreshToken == Some(t) {
            var id :| id in users && users[id].refreshToken == Some(t);
            TokenLookupUnique(users, t, id);
            found := Some(id);
          }
      }
      if found.Some? {
        var user := users[found.value];
        user := user.(refreshToken := None);
        SetTokenPreservesInvariant(users, found.value, None);
        ghost var before := users;
        users := users[found.value := user];
        if token.Null? {
          // Any logged-out user the null filter matches is left as it was.
          assert users == before;
        }
      }
      reply := LoggedOut;
    }
  }
}
