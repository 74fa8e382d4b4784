/**
 * The identity endpoints: `POST /register`, `POST /login` and the payload of
 * the token that login issues.
 *
 * The JSON body is a record of optional strings (a key that is absent, or
 * a body that is missing altogether, is `None`). Password hashing is the
 * `Hasher` parameter with a caller-chosen salt; the signed token is
 * represented by its payload, since signing is done by a foreign library.
 */
module Auth {
  import opened Wrappers
  import opened Seqs
  import opened Models

  /** Tokens expire 24 hours after they are issued. */
  const TokenLifetime: int := 24 * 60

  /** The payload of `generate_token`: `user_id`, `role` and `exp`. */
  datatype TokenClaims = TokenClaims(userId: int, role: Role, exp: int)

  /** `generate_token`: the claims signed for a user at `issuedAt`. */
  function GenerateToken(userId: int, role: Role, issuedAt: int): (c: TokenClaims)
    ensures c.userId == userId && c.role == role
    ensures c.exp - issuedAt == TokenLifetime
  {
    TokenClaims(userId, role, issuedAt + TokenLifetime)
  }

  /** A JSON field that Python treats as false: absent or the empty string. */
  predicate Blank(field: Option<string>) {
    field.None? || field.value == ""
  }

  datatype RegisterRequest = RegisterRequest(name: Option<string>, email: Option<string>, password: Option<string>)

  datatype LoginRequest = LoginRequest(email: Option<string>, password: Option<string>)

  /** What a successful login answers: the token, the role and `user.to_dict()`. */
  datatype LoginResponse = LoginResponse(token: TokenClaims, role: Role, user: UserView)

  /** The user row `register` creates: role `patient`, password through `set_password`. */
  function Registered(t: Tables, req: RegisterRequest, salt: nat, hasher: Hasher, now: int): User
    requires !Blank(req.name) && !Blank(req.email) && !Blank(req.password)
  {
    var u := NewUser(NextId(t.users, UserKey), req.name.value, req.email.value, Some(Patient), now);
    SetPassword(u, req.password.value, salt, hasher)
  }

  /**
   * `register`: every field must be present and non-empty, the email must be
   * new; then one patient is added.
   */
  function RegisterStep(t: Tables, req: RegisterRequest, salt: nat, hasher: Hasher, now: int): (s: Step<UserView>)
    ensures Blank(req.name) || Blank(req.email) || Blank(req.password) ==>
              s == Step(Failure(MissingFields), t)
    ensures !Blank(req.name) && !Blank(req.email) && !Blank(req.password) && req.email.value in Emails(t.users) ==>
              s == Step(Failure(EmailExists), t)
    ensures s.result.Success? <==>
              !Blank(req.name) && !Blank(req.email) && !Blank(req.password) && req.email.value !in Emails(t.users)
    ensures s.result.Success? ==>
              && |s.after.users| == |t.users| + 1
              && s.after.users[..|t.users|] == t.users
              && s.after.slots == t.slots && s.after.bookings == t.bookings
              && var u := s.after.users[|t.users|];
                 && u.id !in UserIds(t.users)
                 && u.name == req.name.value && u.email == req.email.value
                 && u.role == Patient && u.createdAt == now
                 && CheckPassword(u, req.password.value, hasher)
                 && s.result.value == UserToDict(u)
  {
    if Blank(req.name) || Blank(req.email) || Blank(req.password) then
      Step(Failure(MissingFields), t)
    else if FindUserByEmail(t.users, req.email.value).Some? then
      Step(Failure(EmailExists), t)
    else
      var u := Registered(t, req, salt, hasher, now);
      Step(Success(UserToDict(u)), t.(users := t.users + [u]))
  }

  /** Registration keeps ids and emails unique and every stored password hashed. */
  lemma RegisterKeepsWellFormed(t: Tables, req: RegisterRequest, salt: nat, hasher: Hasher, now: int)
    requires WellFormed(t)
    ensures WellFormed(RegisterStep(t, req, salt, hasher, now).after)
  {
    var s := RegisterStep(t, req, salt, hasher, now);
    if s.result.Success? {
      var u := Registered(t, req, salt, hasher, now);
      DistinctAppend(t.users, u, UserKey);
      DistinctAppend(t.users, u, EmailKey);
      assert UserIds(t.users) <= UserIds(s.after.users);
    }
  }

  /** `register`, step by step against the session. */
  method Register(db: Database, req: RegisterRequest, salt: nat, hasher: Hasher, now: int)
    returns (r: Result<UserView, Error>)
    requires db.Valid()
    modifies db
    ensures db.Valid()
    ensures r == RegisterStep(old(db.Snapshot()), req, salt, hasher, now).result
    ensures db.Snapshot() == RegisterStep(old(db.Snapshot()), req, salt, hasher, now).after
  {
    RegisterKeepsWellFormed(db.Snapshot(), req, salt, hasher, now);
    if Blank(req.name) || Blank(req.email) || Blank(req.password) {
      return Failure(MissingFields);
    }
    var existing := FindUserByEmail(db.users, req.email.value);
    if existing.Some? {
      return Failure(EmailExists);
    }
    var user := NewUser(NextId(db.users, UserKey), req.name.value, req.email.value, Some(Patient), now);
    user := SetPassword(user, req.password.value, salt, hasher);
    db.users := db.users + [user];
    r := Success(UserToDict(user));
  }

  /**
   * `login`: both fields are required; an unknown email and a wrong password
   * give the same error; success issues a token for the stored id and role.
   * The store is only read.
   */
  function Login(users: seq<User>, req: LoginRequest, hasher: Hasher, issuedAt: int): (r: Result<LoginResponse, Error>)
    ensures Blank(req.email) || Blank(req.password) ==> r == Failure(MissingCredentials)
    ensures !Blank(req.email) && !Blank(req.password) && r.Failure? ==> r.error == InvalidCredentials
    ensures !Blank(req.email) && req.email.value !in Emails(users) ==> r.Failure?
    ensures r.Success? ==>
              && !Blank(req.email) && !Blank(req.password)
              && var u := FindUserByEmail(users, req.email.value);
                 && u.Some? && CheckPassword(u.value, req.password.value, hasher)
                 && r.value.token == TokenClaims(u.value.id, u.value.role, issuedAt + TokenLifetime)
                 && r.value.role == u.value.role
                 && r.value.user == UserToDict(u.value)
  {
    if Blank(req.email) || Blank(req.password) then Failure(MissingCredentials)
    else
      var user := FindUserByEmail(users, req.email.value);
      if user.None? || !CheckPassword(user.value, req.password.value, hasher) then Failure(InvalidCredentials)
      else
        var u := user.value;
        Success(LoginResponse(GenerateToken(u.id, u.role, issuedAt), u.role, UserToDict(u)))
  }

  /** With unique emails, login succeeds exactly for a stored user's email and a password that checks against it. */
  lemma LoginSucceedsIff(users: seq<User>, req: LoginRequest, hasher: Hasher, issuedAt: int)
    requires Distinct(users, EmailKey)
    requires !Blank(req.email) && !Blank(req.password)
    ensures Login(users, req, hasher, issuedAt).Success? <==>
              exists u :: u in users && u.email == req.email.value && CheckPassword(u, req.password.value, hasher)
  {
    var found := FindUserByEmail(users, req.email.value);
    if u :| u in users && u.email == req.email.value && CheckPassword(u, req.password.value, hasher) {
      LookupUnique(users, EmailKey, found.value, u);
    }
  }

  /** A fresh registration can log in at once, as a patient, and sees the user it registered. */
  lemma RegisterThenLogin(t: Tables, req: RegisterRequest, salt: nat, hasher: Hasher, now: int, issuedAt: int)
    requires WellFormed(t)
    requires RegisterStep(t, req, salt, hasher, now).result.Success?
    ensures var s := RegisterStep(t, req, salt, hasher, now);
            var r := Login(s.after.users, LoginRequest(req.email, req.password), hasher, issuedAt);
            && r.Success?
            && r.value.role == Patient
            && r.value.user == s.result.value
            && r.value.token.userId == s.result.value.id
  {
    var s := RegisterStep(t, req, salt, hasher, now);
    var u := s.after.users[|t.users|];
    assert u in s.after.users;
    RegisterKeepsWellFormed(t, req, salt, hasher, now);
    var found := FindUserByEmail(s.after.users, req.email.value);
    LookupUnique(s.after.users, EmailKey, found.value, u);
  }
}
