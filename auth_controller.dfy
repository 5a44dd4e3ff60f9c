/**
 * `controllers/authController.js`: `signup` (refuse a taken email, hash the password, save the
 * user, answer 201 with a token) and `login` (find by email, compare the password, answer 200
 * with a token). Any rejected database call lands in the shared `catch` and answers 500.
 */
module AuthController {
  import opened Common
  import opened Http
  import opened UserStore
  import Jwt
  import AuthMiddleware

  const Conflict := Response(400, ErrorMessage("User already exists"))
  const InvalidCredentials := Response(400, ErrorMessage("Invalid credentials"))
  const ServerError := Response(500, Text("Server error"))
  const Registered := "User registered successfully"
  const LoggedIn := "Login successful"

  /** `bcrypt.hash(password, salt)` and `bcrypt.compare(password, hash)`. */
  datatype Hasher = Hasher(hash: (string, string) -> string, compare: (string, string) -> bool)

  /** A password always matches its own hash, whatever the salt. */
  ghost predicate Sound(h: Hasher) {
    forall p: string, s: string :: h.compare(p, h.hash(p, s))
  }

  /** The user documents after a signup, and the response sent. */
  datatype SignupResult = SignupResult(users: seq<UserRecord>, response: Response)

  /**
   * What one signup does. `salt` is what `bcrypt.genSalt` produced, `newId` the `_id` the new
   * document receives, `now` the second `jwt.sign` stamps as `iat`, and `dbUp` whether the
   * database answers this request's calls.
   */
  function SignupEffect(users: seq<UserRecord>, username: string, email: string, password: string,
                        salt: string, newId: UserId, hasher: Hasher, sign: Jwt.Signer, now: nat, dbUp: bool)
    : (r: SignupResult)
    ensures r.response.status == 201
            <==> dbUp && FindByEmail(users, email).None? && FindById(users, newId).None?
    ensures r.response.status == 201 ==>
              && r.users == users + [UserRecord(newId, username, email, hasher.hash(password, salt))]
              && r.response.body == Issued(sign(Jwt.Claims(newId, now, Jwt.Lifetime)), Registered)
    ensures r.response.status != 201 ==> r.users == users
    ensures dbUp && FindByEmail(users, email).Some? ==> r.response == Conflict
    ensures (!dbUp || FindByEmail(users, email).None?) && r.response.status != 201
            ==> r.response == ServerError
    ensures UniqueIds(users) ==> UniqueIds(r.users)
    ensures UniqueEmails(users) ==> UniqueEmails(r.users)
  {
    if !dbUp then SignupResult(users, ServerError)
    else if FindByEmail(users, email).Some? then SignupResult(users, Conflict)
    else if FindById(users, newId).Some? then SignupResult(users, ServerError)
    else
      var rec := UserRecord(newId, username, email, hasher.hash(password, salt));
      SignupResult(users + [rec], Response(201, Issued(sign(Jwt.Claims(newId, now, Jwt.Lifetime)), Registered)))
  }

  /** The signup handler over the user collection. */
  method Signup(store: UserCollection, username: string, email: string, password: string,
                salt: string, newId: UserId, hasher: Hasher, sign: Jwt.Signer, now: nat, dbUp: bool)
    returns (r: Response)
    requires store.Valid()
    modifies store
    ensures store.Valid()
    ensures SignupResult(store.users, r)
            == SignupEffect(old(store.users), username, email, password, salt, newId, hasher, sign, now, dbUp)
  {
    if !dbUp {
      return ServerError;
    }
    var existing := FindByEmail(store.users, email);
    if existing.Some? {
      return Conflict;
    }
    var hashed := hasher.hash(password, salt);
    var saved := store.Insert(UserRecord(newId, username, email, hashed));
    if !saved {
      // a rejected save is caught like any other error
      return ServerError;
    }
    var token := sign(Jwt.Claims(newId, now, Jwt.Lifetime));
    r := Response(201, Issued(token, Registered));
  }

  /** The login handler: it only reads the collection. */
  function Login(users: seq<UserRecord>, email: string, password: string, hasher: Hasher,
                 sign: Jwt.Signer, now: nat, dbUp: bool): (r: Response)
    ensures !dbUp ==> r == ServerError
    ensures r.status == 200
            <==> dbUp && FindByEmail(users, email).Some?
                 && hasher.compare(password, FindByEmail(users, email).value.password)
    ensures r.status == 200 ==>
              r.body == Issued(sign(Jwt.Claims(FindByEmail(users, email).value.id, now, Jwt.Lifetime)), LoggedIn)
    ensures dbUp && r.status != 200 ==> r == InvalidCredentials
  {
    if !dbUp then ServerError
    else
      match FindByEmail(users, email)
      case None => InvalidCredentials
      case Some(user) =>
        if !hasher.compare(password, user.password) then InvalidCredentials
        else Response(200, Issued(sign(Jwt.Claims(user.id, now, Jwt.Lifetime)), LoggedIn))
  }

  /**
   * After a successful signup at second `now`, the same email and password log in at any later
   * second `later`, with a token over the new id issued at `later`; only a login in the same
   * second gets the signup's own token.
   */
  lemma SignupThenLogin(users: seq<UserRecord>, username: string, email: string, password: string,
                        salt: string, newId: UserId, hasher: Hasher, sign: Jwt.Signer, now: nat, later: nat)
    requires Sound(hasher)
    ensures var s := SignupEffect(users, username, email, password, salt, newId, hasher, sign, now, true);
            s.response.status == 201 ==>
              && Login(s.users, email, password, hasher, sign, later, true)
                 == Response(200, Issued(sign(Jwt.Claims(newId, later, Jwt.Lifetime)), LoggedIn))
              && (later == now ==> Login(s.users, email, password, hasher, sign, later, true).body.token
                                   == s.response.body.token)
  {
    var rec := UserRecord(newId, username, email, hasher.hash(password, salt));
    FindByEmailAppend(users, rec, email);
    assert hasher.compare(password, hasher.hash(password, salt));
  }

  /** After a successful signup, a password that does not match the stored hash is refused. */
  lemma SignupThenWrongPassword(users: seq<UserRecord>, username: string, email: string,
                                password: string, other: string, salt: string, newId: UserId,
                                hasher: Hasher, sign: Jwt.Signer, now: nat, later: nat)
    requires !hasher.compare(other, hasher.hash(password, salt))
    ensures var s := SignupEffect(users, username, email, password, salt, newId, hasher, sign, now, true);
            s.response.status == 201 ==> Login(s.users, email, other, hasher, sign, later, true) == InvalidCredentials
  {
    var rec := UserRecord(newId, username, email, hasher.hash(password, salt));
    FindByEmailAppend(users, rec, email);
  }

  /** A second signup with an email that already signed up is refused and changes nothing. */
  lemma SecondSignupConflicts(users: seq<UserRecord>, username: string, email: string, password: string,
                              salt: string, newId: UserId, hasher: Hasher, sign: Jwt.Signer, now: nat,
                              username2: string, password2: string, salt2: string, newId2: UserId, now2: nat)
    ensures var s := SignupEffect(users, username, email, password, salt, newId, hasher, sign, now, true);
            var t := SignupEffect(s.users, username2, email, password2, salt2, newId2, hasher, sign, now2, true);
            s.response.status == 201 ==> t.response == Conflict && t.users == s.users
  {
    var rec := UserRecord(newId, username, email, hasher.hash(password, salt));
    FindByEmailAppend(users, rec, email);
  }

  /** A signup does not change how any other email logs in. */
  lemma SignupKeepsOtherLogins(users: seq<UserRecord>, username: string, email: string, password: string,
                               salt: string, newId: UserId, hasher: Hasher, sign: Jwt.Signer, now: nat,
                               email2: string, password2: string, later: nat)
    requires email2 != email
    ensures var s := SignupEffect(users, username, email, password, salt, newId, hasher, sign, now, true);
            Login(s.users, email2, password2, hasher, sign, later, true)
            == Login(users, email2, password2, hasher, sign, later, true)
  {
    var rec := UserRecord(newId, username, email, hasher.hash(password, salt));
    FindByEmailAppend(users, rec, email2);
  }

  /**
   * With signing and verifying under one secret, a login's token passes the middleware as
   * `"Bearer " + token` and `verifyToken` as it is, both giving the user's id.
   */
  lemma LoginTokenAuthenticates(users: seq<UserRecord>, email: string, password: string,
                                hasher: Hasher, sign: Jwt.Signer, now: nat, verify: Jwt.Verifier)
    requires Jwt.Coherent(sign, verify)
    ensures var r := Login(users, email, password, hasher, sign, now, true);
            r.status == 200 ==>
              var id := FindByEmail(users, email).value.id;
              && AuthMiddleware.Authenticate(Some(AuthMiddleware.BearerPrefix + r.body.token), verify)
                 == AuthMiddleware.Next(id)
              && Jwt.VerifyToken(Some(r.body.token), verify) == Success(Some(id))
  {
    var r := Login(users, email, password, hasher, sign, now, true);
    if r.status == 200 {
      var token := r.body.token;
      var c := Jwt.Claims(FindByEmail(users, email).value.id, now, Jwt.Lifetime);
      assert token == sign(c);
      AuthMiddleware.StripBearerPrefixed(token);
      Jwt.NoSpaceVerifiedWhole(token);
    }
  }
}
