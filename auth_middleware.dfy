/**
 * The Express middleware that guards the chat and profile routes: it reads the `Authorization`
 * header, strips a literal `"Bearer "`, verifies the token and either calls `next` with
 * `req.user.id` set or answers 401.
 */
module AuthMiddleware {
  import opened Common
  import opened Strings
  import opened Http
  import Jwt

  const BearerPrefix := "Bearer "
  const NoToken := "No token, authorization denied"
  const InvalidToken := "Invalid token"

  /** The middleware's verdict: the 401 it sends, or one call of `next` with the decoded id. */
  datatype Gate = Denied(response: Response) | Next(userId: UserId)

  /** `authHeader.startsWith("Bearer ") ? authHeader.slice(7) : authHeader`. */
  function StripBearer(header: string): (t: string)
    ensures StartsWith(header, BearerPrefix) ==> header == BearerPrefix + t
    ensures !StartsWith(header, BearerPrefix) ==> t == header
  {
    if StartsWith(header, BearerPrefix) then header[|BearerPrefix|..] else header
  }

  /** The middleware, with `jwt.verify` under the server's secret as `verify`. */
  function Authenticate(header: Option<string>, verify: Jwt.Verifier): (g: Gate)
    ensures g.Next? <==> header.Some? && StripBearer(header.value) != ""
                         && verify(StripBearer(header.value)).Some?
    ensures g.Next? ==> g.userId == verify(StripBearer(header.value)).value
    ensures g.Denied? ==> g.response.status == 401
    ensures g.Denied? && (header.None? || StripBearer(header.value) == "")
            ==> g.response.body == ErrorMessage(NoToken)
    ensures g.Denied? && header.Some? && StripBearer(header.value) != ""
            ==> g.response.body == ErrorMessage(InvalidToken)
  {
    if header.None? || header.value == "" then Denied(Response(401, ErrorMessage(NoToken)))
    else
      var token := StripBearer(header.value);
      if token == "" then Denied(Response(401, ErrorMessage(NoToken)))
      else
        match verify(token)
        case None => Denied(Response(401, ErrorMessage(InvalidToken)))
        case Some(id) => Next(id)
  }

  /** The header `"Bearer " + t` yields exactly `t`. */
  lemma {:induction false} StripBearerPrefixed(t: string)
    ensures StripBearer(BearerPrefix + t) == t
  {
    assert (BearerPrefix + t)[..|BearerPrefix|] == BearerPrefix;
    assert (BearerPrefix + t)[|BearerPrefix|..] == t;
  }

  /** The prefix test is case-sensitive: a header starting with a lower-case `b` is used whole as the token. */
  lemma LowerCaseSchemeKept(header: string)
    requires |header| > 0 && header[0] == 'b'
    ensures StripBearer(header) == header
  {
    assert !StartsWith(header, BearerPrefix) by {
      assert BearerPrefix[0] == 'B';
      if |BearerPrefix| <= |header| {
        assert header[..|BearerPrefix|][0] == 'b';
      }
    }
  }

  /** A header of exactly `"Bearer "` is refused as "no token" whatever `verify` would say. */
  lemma ExactPrefixRefused(v1: Jwt.Verifier, v2: Jwt.Verifier)
    ensures Authenticate(Some(BearerPrefix), v1) == Denied(Response(401, ErrorMessage(NoToken)))
    ensures Authenticate(Some(BearerPrefix), v1) == Authenticate(Some(BearerPrefix), v2)
  {
    StripBearerPrefixed("");
    assert BearerPrefix + "" == BearerPrefix;
  }

  /** A missing header never reaches `verify`. */
  lemma MissingHeaderRefused(v1: Jwt.Verifier, v2: Jwt.Verifier)
    ensures Authenticate(None, v1) == Authenticate(None, v2)
    ensures Authenticate(None, v1) == Denied(Response(401, ErrorMessage(NoToken)))
  {
  }

  /** The two token rules agree on `"Bearer " + t` and on a bare `t` when `t` is non-empty and has no space. */
  lemma ExtractionRulesAgree(t: string)
    requires t != "" && ' ' !in t
    ensures StripBearer(BearerPrefix + t) == t == Jwt.ExtractToken(BearerPrefix + t)
    ensures !StartsWith(t, BearerPrefix) ==> StripBearer(t) == t == Jwt.ExtractToken(t)
  {
    StripBearerPrefixed(t);
    Jwt.SecondFieldVerified("Bearer", t);
    Jwt.NoSpaceVerifiedWhole(t);
  }

  /** They part on another scheme, which only the middleware keeps whole. */
  lemma OtherSchemeRulesDiffer(t: string)
    requires t != "" && ' ' !in t
    ensures StripBearer("Token " + t) == "Token " + t
    ensures Jwt.ExtractToken("Token " + t) == t
  {
    Jwt.SecondFieldVerified("Token", t);
    assert ("Token " + t)[0] != BearerPrefix[0];
  }

  /** And on a token with a space after `"Bearer "`, which only `verifyToken` cuts at the space. */
  lemma SpacedTokenRulesDiffer(t: string, tail: string)
    requires t != "" && ' ' !in t
    ensures StripBearer(BearerPrefix + t + " " + tail) == t + " " + tail
    ensures Jwt.ExtractToken(BearerPrefix + t + " " + tail) == t
  {
    Jwt.SecondOfMoreFieldsVerified("Bearer", t, tail);
    StripBearerPrefixed(t + " " + tail);
    assert BearerPrefix + t + " " + tail == BearerPrefix + (t + " " + tail);
    assert BearerPrefix + t + " " + tail == "Bearer" + " " + t + " " + tail;
  }
}
