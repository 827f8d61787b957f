/** Properties of the session state machine that span several requests:
    the collection invariant holds after any sequence of requests, a refresh
    token is accepted only while it sits in its holder's slot, login overwrites
    the slot, logout empties it, and registering then logging in succeeds. */
module AuthProperties {
  import opened Wrappers
  import opened Strings
  import opened Token
  import opened UserModel
  import opened AuthController

  /** One request to one of the four handlers, with the inputs the model takes
      from the environment (the generated `_id`, the bcrypt salt, the clock,
      the result of a lookup on an `undefined` filter). */
  datatype Call =
    | RegisterCall(body: RegisterBody, id: UserId, salt: string)
    | LoginCall(login: LoginBody, undefinedMatch: Option<UserId>, now: int)
    | RefreshCall(token: Field<Token>, at: int)
    | LogoutCall(logout: Field<Token>, undefinedLogout: Option<UserId>)

  ghost function Handle(sec: Secrets, h: Hasher, users: Users, c: Call): Step {
    match c
    case RegisterCall(body, id, salt) => Register(h, users, body, id, salt)
    case LoginCall(body, m, now) => Login(sec, h, users, body, m, now)
    case RefreshCall(token, now) => Refresh(sec, users, token, now)
    case LogoutCall(token, m) => Logout(users, token, m)
  }

  /** The collection after serving `calls` one after another. */
  ghost function Run(sec: Secrets, h: Hasher, users: Users, calls: seq<Call>): Users
    decreases |calls|
  {
    if calls == [] then users else Run(sec, h, Handle(sec, h, users, calls[0]).users, calls[1..])
  }

  /** Every handler keeps the collection invariant. */
  lemma HandlePreservesInvariant(sec: Secrets, h: Hasher, users: Users, c: Call)
    requires StoreInvariant(users)
    ensures StoreInvariant(Handle(sec, h, users, c).users)
  {
    match c
    case RegisterCall(body, id, salt) =>
      if body.password.Given? && CreateUser(users, id, body.name, body.email, h.hash(body.password.value, salt)).Some? {
        CreatePreservesInvariant(users, id, body.name, body.email, h.hash(body.password.value, salt));
      }
    case LoginCall(body, m, now) =>
      var s := Login(sec, h, users, body, m, now);
      if s.reply.LoginSuccessful? {
        SetTokenPreservesInvariant(users, s.reply.refreshToken.id, Some(s.reply.refreshToken));
      }
    case RefreshCall(token, now) =>
    case LogoutCall(token, m) =>
      var found := LogoutLookup(users, token, m);
      if found.Some? {
        SetTokenPreservesInvariant(users, found.value, None);
        assert Logout(users, token, m).users == users[found.value := users[found.value].(refreshToken := None)];
      } else {
        assert Logout(users, token, m).users == users;
      }
  }

  /** The invariant holds after any sequence of requests from an empty or any
      valid collection. */
  lemma {:induction false} RunPreservesInvariant(sec: Secrets, h: Hasher, users: Users, calls: seq<Call>)
    requires StoreInvariant(users)
    ensures StoreInvariant(Run(sec, h, users, calls))
    decreases |calls|
  {
    if calls != [] {
      HandlePreservesInvariant(sec, h, users, calls[0]);
      RunPreservesInvariant(sec, h, Handle(sec, h, users, calls[0]).users, calls[1..]);
    }
  }

  /** Single-slot revocation: a refresh token that `refreshAccessToken` accepts
      is a JWT issued to some user, that user's slot holds exactly it, and the
      new access token is that user's. */
  lemma AcceptedRefreshTokenIsStored(sec: Secrets, users: Users, token: Field<Token>, now: int)
    requires StoreInvariant(users)
    requires Refresh(sec, users, token, now).reply.AccessTokenRefreshed?
    ensures token.Given? && token.value.Jwt?
    ensures token.value.id in users && users[token.value.id].refreshToken == Some(token.value)
    ensures token.value.secret == sec.refresh && now < token.value.exp
    ensures Refresh(sec, users, token, now).reply.accessToken == GenerateAccessToken(sec, token.value.id, now)
  {
    var id := FindByRefreshToken(users, Some(token.value)).value;
    assert IssuedTo(users[id].refreshToken.value, id);
  }

  /** Registering a user and then logging in with the same email and password
      succeeds and issues tokens for the new user. */
  lemma RegisterThenLogin(sec: Secrets, h: Hasher, users: Users, body: RegisterBody, id: UserId, salt: string,
                          m: Option<UserId>, now: int)
    requires StoreInvariant(users) && Sound(h)
    requires Register(h, users, body, id, salt).reply.Registered?
    ensures
      var s := Login(sec, h, Register(h, users, body, id, salt).users, LoginBody(body.email, body.password), m, now);
      s.reply.LoginSuccessful? && s.reply.accessToken == GenerateAccessToken(sec, id, now)
      && s.reply.refreshToken == GenerateRefreshToken(sec, id, now)
  {
    var after := Register(h, users, body, id, salt).users;
    CreatePreservesInvariant(users, id, body.name, body.email, h.hash(body.password.value, salt));
    EmailLookupUnique(after, body.email.value, id);
    assert h.compare(body.password.value, h.hash(body.password.value, salt));
  }

  /** A second registration whose email equals a stored one up to ASCII case
      is rejected with 500 and leaves the collection unchanged. */
  lemma DuplicateEmailRejected(h: Hasher, users: Users, body: RegisterBody, id: UserId, salt: string, other: UserId)
    requires StoreInvariant(users)
    requires body.email.Given? && other in users && EqualUpToAsciiCase(users[other].email, body.email.value)
    ensures Register(h, users, body, id, salt).reply.Status() == 500
    ensures Register(h, users, body, id, salt).users == users
  {
    var stored := users[other].email;
    LowerIgnoresAsciiCase(stored, body.email.value);
    assert Lower(stored) == stored;
    assert EmailTaken(users, Lower(body.email.value));
  }

  /** With a collision-free hasher, logging in with any password other than
      the registered one answers 400 "Invalid credentials". */
  lemma WrongPasswordRejected(sec: Secrets, h: Hasher, users: Users, id: UserId, p: string, salt: string,
                              email: string, q: string, m: Option<UserId>, now: int)
    requires StoreInvariant(users) && Binding(h)
    requires id in users && users[id].email == Lower(email) && users[id].password == h.hash(p, salt)
    requires q != p
    ensures Login(sec, h, users, LoginBody(Given(email), Given(q)), m, now).reply == InvalidCredentials
    ensures Login(sec, h, users, LoginBody(Given(email), Given(q)), m, now).users == users
  {
    EmailLookupUnique(users, email, id);
    assert !h.compare(q, h.hash(p, salt));
  }

  /** After logout with a token, no user holds that token. */
  lemma LogoutClearsToken(users: Users, t: Token, m: Option<UserId>)
    requires StoreInvariant(users)
    ensures forall id :: id in Logout(users, Given(t), m).users ==> Logout(users, Given(t), m).users[id].refreshToken != Some(t)
  {
    var after := Logout(users, Given(t), m).users;
    forall id | id in after
      ensures after[id].refreshToken != Some(t)
    {
      if users[id].refreshToken == Some(t) {
        TokenLookupUnique(users, t, id);
      }
    }
  }

  /** Refreshing with a token after logging out with it is refused: 403, or
      401 for the empty string. */
  lemma LogoutRevokes(sec: Secrets, users: Users, t: Token, m: Option<UserId>, now: int)
    requires StoreInvariant(users)
    ensures Refresh(sec, Logout(users, Given(t), m).users, Given(t), now).reply
            == (if t == Malformed("") then RefreshTokenRequired else InvalidRefreshToken)
  {
    LogoutClearsToken(users, t, m);
  }

  /** Logging out twice with the same body leaves what logging out once left. */
  lemma LogoutIdempotent(users: Users, token: Field<Token>, m: Option<UserId>)
    requires StoreInvariant(users)
    ensures Logout(Logout(users, token, m).users, token, m).users == Logout(users, token, m).users
  {
    var once := Logout(users, token, m).users;
    var twice := Logout(once, token, m).users;
    match token
    case Given(t) =>
      LogoutClearsToken(users, t, m);
      assert twice == once;
    case Null =>
      var found := FindByRefreshToken(once, None);
      if found.Some? {
        assert once[found.value].(refreshToken := None) == once[found.value];
      }
      assert twice == once;
    case Absent =>
      assert twice == once;
  }

  /** The refresh token a login returns is accepted by `refreshAccessToken`
      exactly until it expires, seven days after issue, and mints access
      tokens for the same user. */
  lemma LoginThenRefresh(sec: Secrets, h: Hasher, users: Users, body: LoginBody, m: Option<UserId>, t1: int, t2: int)
    requires StoreInvariant(users)
    requires Login(sec, h, users, body, m, t1).reply.LoginSuccessful?
    ensures
      var login := Login(sec, h, users, body, m, t1);
      var r := Refresh(sec, login.users, Given(login.reply.refreshToken), t2);
      (r.reply.AccessTokenRefreshed? <==> t2 < t1 + REFRESH_LIFETIME)
      && (r.reply.AccessTokenRefreshed? ==> r.reply.accessToken == GenerateAccessToken(sec, login.reply.refreshToken.id, t2))
      && (!r.reply.AccessTokenRefreshed? ==> r.reply == InvalidRefreshToken)
  {
    var login := Login(sec, h, users, body, m, t1);
    var id := login.reply.refreshToken.id;
    SetTokenPreservesInvariant(users, id, Some(login.reply.refreshToken));
    TokenLookupUnique(login.users, login.reply.refreshToken, id);
  }

  /** A second successful login of the same user overwrites the slot: the
      first refresh token is then refused, unless both logins fell in the
      same second, in which case the two tokens are the same string. */
  lemma SecondLoginRevokesFirst(sec: Secrets, h: Hasher, users: Users, b1: LoginBody, m1: Option<UserId>, t1: int,
                                b2: LoginBody, m2: Option<UserId>, t2: int, now: int)
    requires StoreInvariant(users)
    requires Login(sec, h, users, b1, m1, t1).reply.LoginSuccessful?
    requires
      var first := Login(sec, h, users, b1, m1, t1);
      var second := Login(sec, h, first.users, b2, m2, t2);
      second.reply.LoginSuccessful? && second.reply.refreshToken.id == first.reply.refreshToken.id
    ensures
      var first := Login(sec, h, users, b1, m1, t1);
      var second := Login(sec, h, first.users, b2, m2, t2);
      Refresh(sec, second.users, Given(first.reply.refreshToken), now).reply.AccessTokenRefreshed?
      <==> t1 == t2 && now < t1 + REFRESH_LIFETIME
  {
    var first := Login(sec, h, users, b1, m1, t1);
    var id := first.reply.refreshToken.id;
    SetTokenPreservesInvariant(users, id, Some(first.reply.refreshToken));
    var second := Login(sec, h, first.users, b2, m2, t2);
    SetTokenPreservesInvariant(first.users, id, Some(second.reply.refreshToken));
    var rt := first.reply.refreshToken;
    if t1 == t2 {
      TokenLookupUnique(second.users, rt, id);
    } else {
      assert second.users[id].refreshToken != Some(rt);
      forall j | j in second.users
        ensures second.users[j].refreshToken != Some(rt)
      {
        if j != id {
          assert second.users[j] == users[j];
        }
      }
    }
  }

  /** The collection after the worked example's registration. */
  lemma ExampleRegistration(h: Hasher, salt: string)
    requires h.hash("Secret1", salt) != ""
    ensures
      var reg := Register(h, map[], RegisterBody(Given("A"), Given("a@x.com"), Given("Secret1")), 1, salt);
      reg.reply.Status() == 201 && reg.reply.user.password == h.hash("Secret1", salt)
      && reg.users == map[1 := User("A", "a@x.com", h.hash("Secret1", salt), None)]
      && StoreInvariant(reg.users)
  {
    var body := RegisterBody(Given("A"), Given("a@x.com"), Given("Secret1"));
    var hashed := h.hash("Secret1", salt);
    assert IsTrimmed("A") && IsLowerCase("a@x.com");
    assert CreateUser(map[], 1, body.name, body.email, hashed) == Some(User("A", "a@x.com", hashed, None));
    CreatePreservesInvariant(map[], 1, body.name, body.email, hashed);
  }

  /** A full session from an empty collection: register `{A, a@x.com,
      Secret1}` (201, only the hash stored), log in at `t1` (200), refresh at
      `t2` while the refresh token is live (200, a new access token exactly
      when `t2` is a later second), log out (200), and refresh again with the
      same token (403). */
  lemma WorkedExample(sec: Secrets, h: Hasher, salt: string, t1: int, t2: int)
    requires Sound(h) && h.hash("Secret1", salt) != ""
    requires t1 <= t2 < t1 + REFRESH_LIFETIME
    ensures
      var reg := Register(h, map[], RegisterBody(Given("A"), Given("a@x.com"), Given("Secret1")), 1, salt);
      var login := Login(sec, h, reg.users, LoginBody(Given("a@x.com"), Given("Secret1")), None, t1);
      reg.reply.Status() == 201 && reg.reply.user.password == h.hash("Secret1", salt)
      && login.reply.LoginSuccessful?
      && (var refresh := Refresh(sec, login.users, Given(login.reply.refreshToken), t2);
          var logout := Logout(login.users, Given(login.reply.refreshToken), None);
          var again := Refresh(sec, logout.users, Given(login.reply.refreshToken), t2);
          && refresh.reply.AccessTokenRefreshed?
          && (refresh.reply.accessToken != login.reply.accessToken <==> t2 != t1)
          && logout.reply.Status() == 200 && again.reply.Status() == 403)
  {
    var body := RegisterBody(Given("A"), Given("a@x.com"), Given("Secret1"));
    ExampleRegistration(h, salt);
    var users := Register(h, map[], body, 1, salt).users;
    RegisterThenLogin(sec, h, map[], body, 1, salt, None, t1);
    var lb := LoginBody(Given("a@x.com"), Given("Secret1"));
    var login := Login(sec, h, users, lb, None, t1);
    var rt := login.reply.refreshToken;
    assert rt == GenerateRefreshToken(sec, 1, t1);
    LoginThenRefresh(sec, h, users, lb, None, t1, t2);
    SetTokenPreservesInvariant(users, 1, Some(rt));
    LogoutRevokes(sec, login.users, rt, None, t2);
  }
}
