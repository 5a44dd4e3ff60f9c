/**
 * `routes/user.route.js`: `GET /profile` behind the auth middleware, answering with the
 * signed-in user's document without its password.
 */
module UserRoute {
  import opened Common
  import opened Http
  import opened UserStore
  import Jwt
  import AuthMiddleware
  import AuthController

  const NotFound := Response(404, ErrorMessage("User not found"))

  /** The handler body for `req.user.id == id`; a read, so the collection is never changed. */
  function ProfileOf(users: seq<UserRecord>, id: UserId, dbUp: bool): (r: Response)
    ensures !dbUp ==> r == AuthController.ServerError
    ensures r == NotFound <==> dbUp && forall k :: 0 <= k < |users| ==> users[k].id != id
    ensures r.status == 200 ==>
              dbUp && exists k :: 0 <= k < |users| && users[k].id == id && r.body == Profile(WithoutPassword(users[k]))
    ensures dbUp ==> r.status == 200 || r == NotFound
  {
    if !dbUp then AuthController.ServerError
    else
      match FindById(users, id)
      case None => NotFound
      case Some(user) => Response(200, Profile(WithoutPassword(user)))
  }

  /** `router.get("/profile", authMiddleware, ...)`. */
  function ProfileRoute(users: seq<UserRecord>, header: Option<string>, verify: Jwt.Verifier, dbUp: bool)
    : (r: Response)
    ensures match AuthMiddleware.Authenticate(header, verify)
            case Denied(refusal) => r == refusal
            case Next(id) => r == ProfileOf(users, id, dbUp)
  {
    match AuthMiddleware.Authenticate(header, verify)
    case Denied(refusal) => refusal
    case Next(id) => ProfileOf(users, id, dbUp)
  }

  /** Ids are unique, so the profile shown is the one document with that id. */
  lemma ProfileIsTheUsers(users: seq<UserRecord>, k: nat, dbUp: bool)
    requires UniqueIds(users) && k < |users| && dbUp
    ensures ProfileOf(users, users[k].id, dbUp) == Response(200, Profile(WithoutPassword(users[k])))
  {
    var r := FindById(users, users[k].id);
    var j :| 0 <= j < |users| && users[j] == r.value;
    assert j == k;
  }

  /**
   * Sign up, then present the signup's token as `"Bearer " + token`: the profile shown is the
   * new user's username and email under the new id.
   */
  lemma SignupThenProfile(users: seq<UserRecord>, username: string, email: string, password: string,
                          salt: string, newId: UserId, hasher: AuthController.Hasher,
                          sign: Jwt.Signer, now: nat, verify: Jwt.Verifier)
    requires Jwt.Coherent(sign, verify)
    ensures var s := AuthController.SignupEffect(users, username, email, password, salt, newId, hasher, sign, now, true);
            s.response.status == 201 ==>
              ProfileRoute(s.users, Some(AuthMiddleware.BearerPrefix + s.response.body.token), verify, true)
              == Response(200, Profile(PublicUser(newId, username, email)))
  {
    var s := AuthController.SignupEffect(users, username, email, password, salt, newId, hasher, sign, now, true);
    if s.response.status == 201 {
      var rec := UserRecord(newId, username, email, hasher.hash(password, salt));
      var token := s.response.body.token;
      assert token == sign(Jwt.Claims(newId, now, Jwt.Lifetime));
      AuthMiddleware.StripBearerPrefixed(token);
      FindByIdAppend(users, rec, newId);
    }
  }
}
