/**
 * The three request gates of the backend. Each one looks at the request
 * (the Authorization header, the identity an earlier gate attached, the
 * body) and either lets the chain continue with an identity or answers
 * the request itself with a status code.
 */
module Middleware {
  import opened Wrappers
  import opened Schema
  import opened Http
  import opened Crypto
  import Js

  /** The outcome of a gate: continue with `req.user`, or stop with a response. */
  datatype GateResult = Pass(user: Identity) | Fail(response: Response)

  const NoToken := Response(401, Message("Access denied: No token provided"))
  const BadFormat := Response(401, Message("Invalid token format. Use 'Bearer <token>'"))
  const BadToken := Response(403, Message("Invalid or expired token"))
  const NoUser := Response(401, Message("Unauthorized: User info missing"))
  const AdminsOnly := Response(403, Message("Access denied: Admins only"))
  const WrongBranch := Response(403, Message("Only admins or users from the same branch can perform this action"))

  /** The token of an `Authorization` header: split on single spaces, there must be exactly two pieces, the first "Bearer". */
  function BearerToken(header: string): (r: Option<string>)
    ensures r.Some? ==> header == "Bearer " + r.value && ' ' !in r.value
    ensures |header| < 7 ==> r.None?
  {
    var parts := Js.Split(header, ' ');
    if |parts| != 2 || parts[0] != "Bearer" then None
    else
      Js.SplitTwo(header, ' ', "Bearer", parts[1]);
      assert "Bearer " == "Bearer" + [' '];
      Some(parts[1])
  }

  /** A header yields token `t` exactly when it is "Bearer", one space, and a space-free `t`. */
  lemma BearerTokenIff(header: string, t: string)
    ensures BearerToken(header) == Some(t) <==> header == "Bearer " + t && ' ' !in t
  {
    var parts := Js.Split(header, ' ');
    assert "Bearer " == "Bearer" + [' '];
    Js.SplitTwo(header, ' ', "Bearer", t);
    if BearerToken(header) == Some(t) {
      assert parts == ["Bearer", t];
    }
  }

  /** The header the client builds, `Bearer ${token}`, gives back the token it was built from. */
  lemma BearerRoundTrip(t: string)
    requires ' ' !in t
    ensures BearerToken("Bearer " + t) == Some(t)
  {
    BearerTokenIff("Bearer " + t, t);
  }

  /** A header that does not start with "Bearer " is refused, whatever follows. */
  lemma WrongSchemeRefused(header: string)
    requires |header| < 7 || header[..7] != "Bearer "
    ensures BearerToken(header) == None
  {
    if BearerToken(header).Some? {
      var t := BearerToken(header).value;
      BearerTokenIff(header, t);
    }
  }

  /** A token part holding a space, such as a third piece or a doubled space, is refused. */
  lemma SpacedTokenRefused(t: string)
    requires ' ' in t
    ensures BearerToken("Bearer " + t) == None
  {
    assert "Bearer " + t == "Bearer" + [' '] + t;
    Js.SplitCons("Bearer", ' ', t);
    Js.SplitLength(t, ' ');
    Js.CountPositive(t, ' ');
  }

  /** The three malformed headers "Token abc", "Bearer a b" and "Bearer  abc". */
  lemma MalformedExamples()
    ensures BearerToken("Token abc") == None
    ensures BearerToken("Bearer a b") == None
    ensures BearerToken("Bearer  abc") == None
  {
    WrongSchemeExample();
    SpacedExamples();
  }

  /** A header with another scheme. */
  lemma WrongSchemeExample()
    ensures BearerToken("Token abc") == None
  {
  }

  /** A token with a space inside, and one after a doubled space. */
  lemma SpacedExamples()
    ensures BearerToken("Bearer a b") == None
    ensures BearerToken("Bearer  abc") == None
  {
    assert "Bearer a b" == "Bearer " + "a b";
    SpacedTokenRefused("a b");
    assert "Bearer  abc" == "Bearer " + " abc";
    SpacedTokenRefused(" abc");
  }

  /** `verifyToken` at time `now`. */
  function VerifyToken(authorization: Option<string>, decode: Decoder, now: int): (r: GateResult)
    ensures !Js.Truthy(authorization) ==> r == Fail(NoToken)
    ensures Js.Truthy(authorization) && BearerToken(authorization.value).None? ==> r == Fail(BadFormat)
    ensures Js.Truthy(authorization) && BearerToken(authorization.value).Some? ==>
              var d := Verify(decode, BearerToken(authorization.value).value, now);
              && (d.None? ==> r == Fail(BadToken))
              && (d.Some? ==> r == Pass(Identity(d.value.claims.id, d.value.claims.role,
                                                 d.value.claims.branch, d.value.claims.email)))
  {
    if !Js.Truthy(authorization) then Fail(NoToken)
    else match BearerToken(authorization.value)
      case None => Fail(BadFormat)
      case Some(token) =>
        match Verify(decode, token, now)
        case None => Fail(BadToken)
        case Some(d) => Pass(Identity(d.claims.id, d.claims.role, d.claims.branch, d.claims.email))
  }

  /** A token the server signed, sent as the client sends it before it expires, attaches exactly the signed claims. */
  lemma SignedTokenPasses(sign: Signer, decode: Decoder, c: Claims, iat: int, exp: int, now: int)
    requires Recovers(sign, decode, c, iat, exp)
    requires now < exp
    ensures VerifyToken(Some("Bearer " + sign(c, iat, exp)), decode, now)
              == Pass(Identity(c.id, c.role, c.branch, c.email))
  {
    BearerRoundTrip(sign(c, iat, exp));
  }

  /** The same token at or after its expiry is refused with 403, not 401. */
  lemma ExpiredTokenRefused(sign: Signer, decode: Decoder, c: Claims, iat: int, exp: int, now: int)
    requires Recovers(sign, decode, c, iat, exp)
    requires exp <= now
    ensures VerifyToken(Some("Bearer " + sign(c, iat, exp)), decode, now) == Fail(BadToken)
  {
    BearerRoundTrip(sign(c, iat, exp));
  }

  /** `verifyAdmin`: only an attached identity whose role is exactly "admin" passes. */
  function VerifyAdmin(user: Option<Identity>): (r: GateResult)
    ensures r.Pass? <==> user.Some? && user.value.role == AdminRole
    ensures r.Pass? ==> r.user == user.value
    ensures user.None? ==> r == Fail(NoUser)
    ensures user.Some? && user.value.role != AdminRole ==> r == Fail(AdminsOnly)
  {
    if user.None? then Fail(NoUser)
    else if user.value.role != AdminRole then Fail(AdminsOnly)
    else Pass(user.value)
  }

  /** `verifyAdminOrSameBranch`: an admin passes whatever the body says; anyone else only with a non-empty body location equal to their branch. */
  function VerifyAdminOrSameBranch(user: Option<Identity>, body: StockBody): (r: GateResult)
    ensures user.None? ==> r == Fail(NoUser)
    ensures r.Pass? <==>
              user.Some? &&
              (user.value.role == AdminRole ||
               (Js.Truthy(body.location) && body.location.value == user.value.branch))
    ensures r.Pass? ==> r.user == user.value
    ensures user.Some? && !r.Pass? ==> r == Fail(WrongBranch)
  {
    if user.None? then Fail(NoUser)
    else if user.value.role == AdminRole then Pass(user.value)
    else if Js.Truthy(body.location) && user.value.branch == body.location.value then Pass(user.value)
    else Fail(WrongBranch)
  }
}
