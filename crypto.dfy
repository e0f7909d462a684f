/** The foreign libraries the core calls (bcryptjs, Node's crypto sha256,
    jsonwebtoken, validator.isEmail), taken as uninterpreted functions together
    with the few facts the code relies on, and the token service built on them. */
module Crypto {
  import opened Base
  import Text

  /** The payload `jwt.sign({ id }, secret, { expiresIn })` produces: the user
      id, the issue time `iat` and the expiry `exp`, both in whole seconds. */
  datatype Claims = Claims(id: nat, iat: int, exp: int)

  /** The library functions, as values. The signing secret is folded into
      `jwtSign` and `jwtDecode`; `jwtDecode` answers `None` when the signature
      does not check. `bcryptHash` takes the random salt as its second argument. */
  datatype Libs = Libs(
    bcryptHash: (string, nat) -> string,
    bcryptCompare: (string, string) -> bool,
    sha256Hex: string -> string,
    jwtSign: Claims -> string,
    jwtDecode: string -> Option<Claims>,
    isEmail: string -> bool)

  /** A compact JWS: base64url segments joined by dots, never empty and never
      holding a space. */
  predicate IsCompactToken(t: string)
  {
    t != "" && ' ' !in t
  }

  /** The facts about the libraries that the core depends on. */
  ghost predicate Sound(libs: Libs)
  {
    && (forall p, salt :: libs.bcryptCompare(p, libs.bcryptHash(p, salt)))
    && (forall c :: libs.jwtDecode(libs.jwtSign(c)) == Some(c))
    && (forall c :: IsCompactToken(libs.jwtSign(c)))
  }

  /** `signToken(id)` at time `nowMs` (milliseconds): `iat` is the current
      second and `exp` lies `expiresInSec` seconds later. */
  function SignToken(libs: Libs, id: nat, nowMs: nat, expiresInSec: nat): (token: string)
    ensures Sound(libs) ==> IsCompactToken(token)
    ensures Sound(libs) ==> libs.jwtDecode(token) == Some(Claims(id, nowMs / 1000, nowMs / 1000 + expiresInSec))
  {
    var iat := nowMs / 1000;
    libs.jwtSign(Claims(id, iat, iat + expiresInSec))
  }

  /** `promisify(jwt.verify)(token, secret)` at time `nowMs`: rejects a token
      whose signature fails and one whose `exp` second has been reached. */
  function VerifyToken(libs: Libs, token: string, nowMs: nat): (r: Result<Claims, Failure>)
    ensures r.Ok? <==> libs.jwtDecode(token).Some? && nowMs / 1000 < libs.jwtDecode(token).value.exp
    ensures r.Ok? ==> libs.jwtDecode(token) == Some(r.value)
    ensures r.Err? ==> r.error == TokenRejected(libs.jwtDecode(token).Some?)
  {
    match libs.jwtDecode(token)
    case None => Err(TokenRejected(false))
    case Some(c) => if nowMs / 1000 >= c.exp then Err(TokenRejected(true)) else Ok(c)
  }

  /** A token this server signed verifies, until its expiry second, to the id
      and issue time it was signed with; from then on it is rejected as expired. */
  lemma SignedTokenVerifies(libs: Libs, id: nat, issuedMs: nat, expiresInSec: nat, nowMs: nat)
    requires Sound(libs)
    ensures Text.Split(SignToken(libs, id, issuedMs, expiresInSec), ' ')
              == [SignToken(libs, id, issuedMs, expiresInSec)]
    ensures nowMs / 1000 < issuedMs / 1000 + expiresInSec ==>
              VerifyToken(libs, SignToken(libs, id, issuedMs, expiresInSec), nowMs)
                == Ok(Claims(id, issuedMs / 1000, issuedMs / 1000 + expiresInSec))
    ensures nowMs / 1000 >= issuedMs / 1000 + expiresInSec ==>
              VerifyToken(libs, SignToken(libs, id, issuedMs, expiresInSec), nowMs)
                == Err(TokenRejected(true))
  {
    var c := Claims(id, issuedMs / 1000, issuedMs / 1000 + expiresInSec);
    assert libs.jwtDecode(libs.jwtSign(c)) == Some(c);
    assert IsCompactToken(libs.jwtSign(c));
    Text.SplitJoin([libs.jwtSign(c)], ' ');
  }
}
