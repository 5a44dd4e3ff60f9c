/**
 * `utils/jwt.js`: `verifyToken` as the socket handler uses it, plus the token claims that
 * the auth controller signs. Signing and verification themselves are parameters.
 */
module Jwt {
  import opened Common
  import opened Strings

  /**
   * The signed payload `{ id }`, the `iat` second that `jwt.sign` adds to it, and the
   * `expiresIn` option.
   */
  datatype Claims = Claims(id: UserId, issuedAt: nat, expiresIn: string)

  const Lifetime := "1d"

  /** `jwt.sign(claims, secret, { expiresIn })` under the server's secret. */
  type Signer = Claims -> string

  /** `jwt.verify(token, secret).id` under the server's secret; `None` where `verify` throws. */
  type Verifier = string -> Option<UserId>

  /**
   * What signing and verifying under one secret are taken to satisfy, before expiry (which is
   * not modelled):
   * a signed token is a non-empty string without spaces that verifies to its id.
   */
  ghost predicate Coherent(sign: Signer, verify: Verifier) {
    forall c: Claims :: c.expiresIn == Lifetime ==>
      sign(c) != "" && ' ' !in sign(c) && verify(sign(c)) == Some(c.id)
  }

  /** `token.split(" ")[1] || token`: the second space-separated field, or the whole token. */
  function ExtractToken(token: string): (t: string)
    ensures var f := Split(token, ' ');
            t == if |f| >= 2 && f[1] != "" then f[1] else token
    ensures token != "" ==> t != ""
  {
    var fields := Split(token, ' ');
    if |fields| >= 2 && fields[1] != "" then fields[1] else token
  }

  const NoTokenProvided := "No token provided"

  /**
   * `verifyToken(token)`: a missing or empty token throws; otherwise the id the extracted token
   * verifies to, or `null` when verification fails (the error does not propagate).
   */
  function VerifyToken(token: Option<string>, verify: Verifier): (r: Result<Option<UserId>, string>)
    ensures r.Failure? <==> token.None? || token.value == ""
    ensures r.Failure? ==> r.error == NoTokenProvided
    ensures r.Success? ==> r.value == verify(ExtractToken(token.value))
  {
    if token.None? || token.value == "" then Failure(NoTokenProvided)
    else Success(verify(ExtractToken(token.value)))
  }

  /** A token with no space is verified whole. */
  lemma NoSpaceVerifiedWhole(t: string)
    requires ' ' !in t
    ensures ExtractToken(t) == t
  {
  }

  /** `"Bearer X"` verifies `X`, for `X` non-empty and free of spaces. */
  lemma SecondFieldVerified(scheme: string, x: string)
    requires ' ' !in scheme && ' ' !in x && x != ""
    ensures ExtractToken(scheme + " " + x) == x
  {
    SplitAtFirst(scheme, ' ', x);
    assert scheme + " " + x == scheme + [' '] + x;
  }

  /** `"Bearer X Y"` verifies `X` as well: fields after the second are ignored. */
  lemma SecondOfMoreFieldsVerified(scheme: string, x: string, tail: string)
    requires ' ' !in scheme && ' ' !in x && x != ""
    ensures ExtractToken(scheme + " " + x + " " + tail) == x
  {
    var rest := x + [' '] + tail;
    var token := scheme + " " + x + " " + tail;
    assert token == scheme + [' '] + rest;
    SplitAtFirst(scheme, ' ', rest);
    SplitAtFirst(x, ' ', tail);
    var f := Split(token, ' ');
    assert f == [scheme] + ([x] + Split(tail, ' '));
    assert f[1] == x;
  }

  /** A token ending in its first space (as `"Bearer "`) has an empty second field and is verified whole. */
  lemma TrailingSpaceVerifiedWhole(scheme: string)
    requires ' ' !in scheme
    ensures ExtractToken(scheme + " ") == scheme + " "
  {
    SplitAtFirst(scheme, ' ', "");
    assert scheme + " " == scheme + [' '] + "";
  }

  /** A double space gives an empty second field too, so the whole token is verified. */
  lemma DoubleSpaceVerifiedWhole(scheme: string, tail: string)
    requires ' ' !in scheme
    ensures ExtractToken(scheme + "  " + tail) == scheme + "  " + tail
  {
    var rest := [' '] + tail;
    var token := scheme + "  " + tail;
    assert token == scheme + [' '] + rest;
    SplitAtFirst(scheme, ' ', rest);
    assert [] + [' '] + tail == rest;
    SplitAtFirst([], ' ', tail);
    var f := Split(token, ' ');
    assert f == [scheme] + ([[]] + Split(tail, ' '));
    assert f[1] == "";
  }
}
