/**
 * Registration and password login over the user collection, which is
 * keyed by email (the unique index of the user schema).
 */
module AuthController {
  import opened Wrappers
  import opened Schema
  import opened Http
  import opened Crypto
  import Js
  import Middleware

  /** The stored users by email, with the id the next created user receives. */
  class UserCollection {
    var users: map<string, User>
    var nextId: UserId

    /** Emails are unique, every user passed validation, and ids are fresh and distinct. */
    ghost predicate Valid()
      reads this
    {
      && EmailsUnique(users)
      && (forall e :: e in users ==> ValidUser(users[e]) && users[e].id < nextId)
      && (forall e1, e2 :: e1 in users && e2 in users && e1 != e2 ==> users[e1].id != users[e2].id)
    }

    constructor ()
      ensures Valid() && users == map[] && nextId == 0
    {
      users := map[];
      nextId := 0;
    }

    /** `User.findOne({ email })`. */
    function FindOne(email: string): (r: Option<User>)
      reads this
      ensures r.Some? <==> email in users
      ensures r.Some? ==> r.value == users[email]
    {
      if email in users then Some(users[email]) else None
    }

    /** `User.create(input)`: validate, refuse a duplicate email (the unique index), store under a fresh id. */
    method Create(input: UserInput) returns (r: Option<User>)
      requires Valid()
      modifies this
      ensures Valid()
      ensures r.Some? <==> CastUser(input, old(nextId)).Some? && input.email !in old(users)
      ensures r.Some? ==> r == CastUser(input, old(nextId)) && users == old(users)[input.email := r.value]
                          && nextId == old(nextId) + 1
      ensures r.None? ==> users == old(users) && nextId == old(nextId)
    {
      var cast := CastUser(input, nextId);
      if cast.None? || input.email in users {
        return None;
      }
      r := cast;
      users := users[input.email := cast.value];
      nextId := nextId + 1;
    }
  }

  /** The body of a registration request. */
  datatype RegisterBody = RegisterBody(name: Option<string>, email: Option<string>, password: Option<string>,
                                       role: Option<string>, branch: Option<string>)

  /** The body of a login request. */
  datatype LoginBody = LoginBody(email: Option<string>, password: Option<string>)

  const FieldsRequired := Response(400, Message("All fields are required"))
  const UserExists := Response(400, Message("User already exists"))
  const RegisterFailed := Response(500, Message("Server error during registration"))
  const CredentialsRequired := Response(400, Message("Email and password are required"))
  const UserNotFound := Response(404, Message("User not found"))
  const InvalidPassword := Response(400, Message("Invalid password"))

  /** The five-field check of `registerUser`; a body that passes it also passes the two-field check of `loginUser`. */
  predicate AllPresent(b: RegisterBody)
    ensures AllPresent(b) ==> Js.Truthy(b.email) && Js.Truthy(b.password)
  {
    Js.Truthy(b.name) && Js.Truthy(b.email) && Js.Truthy(b.password) && Js.Truthy(b.role) && Js.Truthy(b.branch)
  }

  /** The user a successful registration stores: the password only as its bcrypt hash. */
  function NewUser(b: RegisterBody, id: UserId, hash: Hasher): (u: User)
    requires AllPresent(b)
    ensures u.id == id && u.version == 0
    ensures u.name == b.name.value && u.email == b.email.value
    ensures u.role == b.role.value && u.branch == b.branch.value
    ensures u.password == hash(b.password.value, SaltRounds)
    ensures ValidUser(u) <==>
              b.branch.value in UserBranches && b.role.value in UserRoles && hash(b.password.value, SaltRounds) != ""
  {
    User(id, b.name.value, b.email.value, hash(b.password.value, SaltRounds), b.branch.value, b.role.value, 0)
  }

  /** `registerUser`: check the five fields, refuse a known email, hash the password, create. */
  method RegisterUser(db: UserCollection, body: RegisterBody, hash: Hasher) returns (r: Response)
    requires db.Valid()
    modifies db
    ensures db.Valid()
    ensures !AllPresent(body) ==> r == FieldsRequired && db.users == old(db.users)
    ensures AllPresent(body) && body.email.value in old(db.users) ==>
              r == UserExists && db.users == old(db.users)
    ensures AllPresent(body) && body.email.value !in old(db.users) ==>
              var u := NewUser(body, old(db.nextId), hash);
              && (ValidUser(u) ==> r == Response(201, UserMessage("User registered successfully", Public(u)))
                                   && db.users == old(db.users)[u.email := u])
              && (!ValidUser(u) ==> r == RegisterFailed && db.users == old(db.users))
  {
    if !AllPresent(body) {
      return FieldsRequired;
    }
    var existing := db.FindOne(body.email.value);
    if existing.Some? {
      return UserExists;
    }
    var hashed := hash(body.password.value, SaltRounds);
    var created := db.Create(UserInput(body.name.value, body.email.value, hashed, body.role.value, body.branch.value));
    if created.None? {
      return RegisterFailed;
    }
    r := Response(201, UserMessage("User registered successfully", Public(created.value)));
  }

  /** The stored user's claims, as the login token carries them. */
  function ClaimsOf(u: User): (c: Claims)
    ensures c.id == u.id && c.role == u.role && c.branch == u.branch && c.email == u.email
  {
    Claims(u.id, u.role, u.branch, u.email)
  }

  /** `loginUser` at clock reading `now`: find the user by email, compare the password with the stored hash, sign a one-day token. */
  function LoginUser(users: map<string, User>, body: LoginBody, compare: Comparer, sign: Signer, now: int): (r: Response)
    ensures !(Js.Truthy(body.email) && Js.Truthy(body.password)) ==> r == CredentialsRequired
    ensures Js.Truthy(body.email) && Js.Truthy(body.password) && body.email.value !in users ==> r == UserNotFound
    ensures Js.Truthy(body.email) && Js.Truthy(body.password) && body.email.value in users ==>
              var u := users[body.email.value];
              && (!compare(body.password.value, u.password) ==> r == InvalidPassword)
              && (compare(body.password.value, u.password) ==>
                    r == Response(200, LoginMessage("Login successful", sign(ClaimsOf(u), now, now + OneDay), Public(u))))
  {
    if !Js.Truthy(body.email) || !Js.Truthy(body.password) then CredentialsRequired
    else if body.email.value !in users then UserNotFound
    else
      var u := users[body.email.value];
      if !compare(body.password.value, u.password) then InvalidPassword
      else
        var token := sign(ClaimsOf(u), now, now + OneDay);
        Response(200, LoginMessage("Login successful", token, Public(u)))
  }

  /** A login succeeds only for a known email, and only with status 200. */
  lemma LoginNeedsKnownEmail(users: map<string, User>, body: LoginBody, compare: Comparer, sign: Signer, now: int)
    ensures LoginUser(users, body, compare, sign, now).status == 200 <==>
              && Js.Truthy(body.email) && Js.Truthy(body.password) && body.email.value in users
              && compare(body.password.value, users[body.email.value].password)
  {
  }

  /** After a registration stores `u`, logging in with the same email and the plaintext password succeeds whenever bcrypt accepts the plaintext against its own hash, and the token carries the registered role and branch. */
  lemma RegisterThenLogin(users: map<string, User>, b: RegisterBody, id: UserId,
                                             hash: Hasher, compare: Comparer, sign: Signer, now: int)
    requires AllPresent(b)
    requires compare(b.password.value, hash(b.password.value, SaltRounds))
    ensures var u := NewUser(b, id, hash);
            var r := LoginUser(users[u.email := u], LoginBody(b.email, b.password), compare, sign, now);
            && r.status == 200
            && r.payload == LoginMessage("Login successful",
                                         sign(Claims(id, b.role.value, b.branch.value, b.email.value), now, now + OneDay),
                                         Public(u))
  {
  }

  /** The token of a successful login, sent back by the client within a day, passes `verifyToken` with the stored user's id, role, branch and email. */
  lemma LoginTokenAuthenticates(users: map<string, User>, body: LoginBody, compare: Comparer,
                                 sign: Signer, decode: Decoder, now: int, later: int)
    requires LoginUser(users, body, compare, sign, now).status == 200
    requires var u := users[body.email.value]; Recovers(sign, decode, ClaimsOf(u), now, now + OneDay)
    requires later < now + OneDay
    ensures var r := LoginUser(users, body, compare, sign, now);
            var u := users[body.email.value];
            r.payload.LoginMessage? &&
            Middleware.VerifyToken(Some("Bearer " + r.payload.token), decode, later)
              == Middleware.Pass(Identity(u.id, u.role, u.branch, u.email))
  {
    LoginNeedsKnownEmail(users, body, compare, sign, now);
    var u := users[body.email.value];
    Middleware.SignedTokenPasses(sign, decode, ClaimsOf(u), now, now + OneDay, later);
  }
}
