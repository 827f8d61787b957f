/** The `User` schema and the users collection behind it: the document shape,
    what `User.create` does to a new document (the `trim` and `lowercase`
    setters, the `required` validators, the unique indexes on `_id` and
    `email`), the two `findOne` queries the controller issues, and the
    invariant every state of the collection keeps. bcrypt is an abstract
    hashing oracle. */
module UserModel {
  import opened Wrappers
  import opened Strings
  import opened Token

  /** bcrypt as an oracle: `hash(plaintext, salt)` is what `bcrypt.hash` returns
      when it draws `salt`; `compare(plaintext, hash)` is `bcrypt.compare`. */
  datatype Hasher = Hasher(hash: (string, string) -> string, compare: (string, string) -> bool)

  /** A password always matches its own hash. */
  ghost predicate Sound(h: Hasher) {
    forall p, salt :: h.compare(p, h.hash(p, salt))
  }

  /** No other password matches a hash (bcrypt collisions ignored). */
  ghost predicate Binding(h: Hasher) {
    forall p, q, salt :: h.compare(q, h.hash(p, salt)) ==> q == p
  }

  /** A stored user document. `password` holds the bcrypt hash; `refreshToken`
      is the single slot for the currently valid refresh token, None when the
      field is absent or `null`. */
  datatype User = User(name: string, email: string, password: string, refreshToken: Option<Token>)

  /** The users collection, keyed by `_id`. */
  type Users = map<UserId, User>

  /** What the schema guarantees of every stored document: the three required
      strings are non-empty, the name is trimmed, the email lower-cased. */
  ghost predicate WellFormed(u: User) {
    u.name != "" && IsTrimmed(u.name) && u.email != "" && IsLowerCase(u.email) && u.password != ""
  }

  /** The refresh token `t` names user `id` as its subject. */
  predicate IssuedTo(t: Token, id: UserId) {
    t.Jwt? && t.id == id
  }

  /** The invariant of the collection: every document is well formed, no two
      users share an email (the unique index), and a stored refresh token is a
      JWT issued to the user holding it. The last clause makes the token slot a
      single-holder slot: no token value sits on two users. */
  ghost predicate StoreInvariant(users: Users) {
    (forall id :: id in users ==> WellFormed(users[id]))
    && (forall a, b :: a in users && b in users && users[a].email == users[b].email ==> a == b)
    && (forall id :: id in users && users[id].refreshToken.Some? ==> IssuedTo(users[id].refreshToken.value, id))
  }

  /** Some stored user already has this email. */
  predicate EmailTaken(users: Users, email: string) {
    exists id :: id in users && users[id].email == email
  }

  /** `User.create({ name, email, password })` with the generated `_id` `id`:
      the setters trim the name and lower-case the email, the `required`
      validators reject a missing or empty field, and the unique indexes on
      `_id` and `email` reject a duplicate. None is the rejected insert. */
  function CreateUser(users: Users, id: UserId, name: Field<string>, email: Field<string>, password: string): (r: Option<User>)
    ensures r.Some? <==>
      name.Given? && Trim(name.value) != "" && email.Given? && email.value != ""
      && password != "" && id !in users && !EmailTaken(users, Lower(email.value))
    ensures r.Some? ==> WellFormed(r.value) && r.value.refreshToken.None?
    ensures r.Some? ==> r.value.name == Trim(name.value) && r.value.email == Lower(email.value) && r.value.password == password
  {
    if name.Given? && email.Given? then
      var u := User(Trim(name.value), Lower(email.value), password, None);
      if u.name != "" && u.email != "" && u.password != "" && id !in users && !EmailTaken(users, u.email)
      then Some(u) else None
    else None
  }

  /** `User.findOne({ email })`. Mongoose casts a query filter through the
      schema, so the `lowercase` setter applies to the requested email too:
      the lookup compares the lower-cased request email with the stored one. */
  ghost function FindByEmail(users: Users, email: string): (r: Option<UserId>)
    ensures r.Some? ==> r.value in users && users[r.value].email == Lower(email)
    ensures r.None? <==> !EmailTaken(users, Lower(email))
  {
    if EmailTaken(users, Lower(email)) then
      Some(var id :| id in users && users[id].email == Lower(email); id)
    else None
  }

  /** `User.findOne({ refreshToken })` where the filter value is `slot`; a
      `null` filter (None) matches a document whose field is null or absent. */
  ghost function FindByRefreshToken(users: Users, slot: Option<Token>): (r: Option<UserId>)
    ensures r.Some? ==> r.value in users && users[r.value].refreshToken == slot
    ensures r.None? <==> forall id :: id in users ==> users[id].refreshToken != slot
  {
    if exists id :: id in users && users[id].refreshToken == slot then
      Some(var id :| id in users && users[id].refreshToken == slot; id)
    else None
  }

  /** Under the invariant the email lookup has one possible answer. */
  lemma EmailLookupUnique(users: Users, email: string, id: UserId)
    requires StoreInvariant(users)
    requires id in users && users[id].email == Lower(email)
    ensures FindByEmail(users, email) == Some(id)
  {
  }

  /** Under the invariant a refresh token is held by one user at most, its
      subject, so the token lookup has one possible answer. */
  lemma TokenLookupUnique(users: Users, t: Token, id: UserId)
    requires StoreInvariant(users)
    requires id in users && users[id].refreshToken == Some(t)
    ensures FindByRefreshToken(users, Some(t)) == Some(id)
    ensures IssuedTo(t, id)
  {
  }

  /** Inserting the document `CreateUser` accepted keeps the invariant. */
  lemma CreatePreservesInvariant(users: Users, id: UserId, name: Field<string>, email: Field<string>, password: string)
    requires StoreInvariant(users)
    requires CreateUser(users, id, name, email, password).Some?
    ensures StoreInvariant(users[id := CreateUser(users, id, name, email, password).value])
  {
  }

  /** Writing a refresh token issued to `id` into `id`'s slot, or clearing the
      slot, keeps the invariant. */
  lemma SetTokenPreservesInvariant(users: Users, id: UserId, slot: Option<Token>)
    requires StoreInvariant(users)
    requires id in users
    requires slot.Some? ==> IssuedTo(slot.value, id)
    ensures StoreInvariant(users[id := users[id].(refreshToken := slot)])
  {
  }
}
