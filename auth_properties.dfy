/** Properties that span several operations of the auth flows: a token that
    `login` hands out is accepted by `protect`, a password change revokes the
    tokens issued before it, soft-deleted users are shut out, the reset token is
    accepted until it expires and only once, and the two defects of the code as
    written. */
module AuthProperties {
  import opened Base
  import opened Text
  import opened Crypto
  import opened UserModel
  import opened AuthController

  // ---------------------------------------------------------------- lookups

  /** Ids are positions, so `findById(i)` finds record `i` exactly when it is
      not soft-deleted. */
  lemma {:induction false} FindById(users: seq<User>, i: int)
    requires StoreValid(users)
    ensures 0 <= i < |users| && Visible(users[i]) ==> FindOne(users, ById(i)) == Some(i)
    ensures !(0 <= i < |users| && Visible(users[i])) ==> FindOne(users, ById(i)).None?
  {
    var r := FindOne(users, ById(i));
    if 0 <= i < |users| && Visible(users[i]) {
      assert Visible(users[i]) && Matches(users[i], ById(i));
      assert users[r.value].id == r.value;
    }
  }

  /** Emails are unique, so `findOne({ email })` finds the one record holding
      it when that record is not soft-deleted. */
  lemma {:induction false} FindByEmail(users: seq<User>, i: int)
    requires StoreValid(users)
    requires 0 <= i < |users| && Visible(users[i])
    ensures FindOne(users, ByEmail(users[i].email)) == Some(i)
  {
    var r := FindOne(users, ByEmail(users[i].email));
    assert Visible(users[i]) && Matches(users[i], ByEmail(users[i].email));
  }

  // ---------------------------------------------------------------- protect

  /** `Authorization: Bearer <token>` yields the token, whatever the cookie. */
  lemma BearerHeaderRoundTrip(token: string, cookie: Option<string>, secure: bool, proto: Option<string>)
    requires IsCompactToken(token)
    ensures ExtractToken(Request(Some("Bearer " + token), cookie, secure, proto)) == Some(token)
  {
    var header := "Bearer " + token;
    assert header[..|"Bearer"|] == "Bearer";
    assert header == Join(["Bearer", token], ' ');
    SplitJoin(["Bearer", token], ' ');
  }

  /** A token naming a record that does not exist or is soft-deleted is
      refused with 401, before its issue time is even looked at. */
  lemma InactiveUserRejected(users: seq<User>, libs: Libs, token: string, nowMs: nat)
    requires StoreValid(users)
    requires VerifyToken(libs, token, nowMs).Ok?
    requires var id := VerifyToken(libs, token, nowMs).value.id; id >= |users| || users[id].active == Some(false)
    ensures Authenticate(users, libs, token, nowMs) == Err(AppError(MsgUserGone, 401))
  {
    FindById(users, VerifyToken(libs, token, nowMs).value.id);
  }

  /** On a request without an `Authorization` header, `isLoggedIn` exposes a
      user exactly when `protect` would attach that same user. */
  lemma IsLoggedInAgreesWithProtect(req: Request, users: seq<User>, libs: Libs, nowMs: nat, u: User)
    requires req.authorization.None?
    ensures SoftAuthenticate(req, users, libs, nowMs) == Some(u) <==> ProtectDecision(req, users, libs, nowMs) == Ok(u)
  {
    assert !HasBearerHeader(req);
  }

  /** A token issued at `issuedMs` for record `i`, whose password last changed
      at or before `issuedMs`, is accepted until it expires. */
  lemma {:induction false} FreshTokenAccepted(users: seq<User>, libs: Libs, i: nat, issuedMs: nat,
                                              expiresInSec: nat, nowMs: nat)
    requires Sound(libs) && StoreValid(users)
    requires i < |users| && Visible(users[i])
    requires users[i].passwordChangedAt.None? ||
             (0 <= users[i].passwordChangedAt.value <= issuedMs)
    requires nowMs / 1000 < issuedMs / 1000 + expiresInSec
    ensures Authenticate(users, libs, SignToken(libs, i, issuedMs, expiresInSec), nowMs) == Ok(Selected(users[i], false))
  {
    SignedTokenVerifies(libs, i, issuedMs, expiresInSec, nowMs);
    FindById(users, i);
    var iat := issuedMs / 1000;
    assert (iat + 1) * 1000 > issuedMs;
  }

  /** The session `login` answers with carries a token that `protect`
      accepts, from the header or from the cookie, until it expires, provided
      the user's password did not change after the login. */
  lemma LoginTokenPassesProtect(body: LoginBody, users: seq<User>, req: Request, libs: Libs,
                                loginMs: nat, expiresInSec: nat, nowMs: nat)
    requires Sound(libs) && StoreValid(users)
    requires Login(body, users, req, libs, loginMs, expiresInSec).Ok?
    requires var i := FindOne(users, ByEmail(body.email.value)).value;
             users[i].passwordChangedAt.None? || (0 <= users[i].passwordChangedAt.value <= loginMs)
    requires nowMs / 1000 < loginMs / 1000 + expiresInSec
    ensures var s := Login(body, users, req, libs, loginMs, expiresInSec).value;
            var i := FindOne(users, ByEmail(body.email.value)).value;
            && ProtectDecision(Request(Some("Bearer " + s.token), None, false, None), users, libs, nowMs)
                 == Ok(Selected(users[i], false))
            && ProtectDecision(Request(None, Some(s.cookie.value), false, None), users, libs, nowMs)
                 == Ok(Selected(users[i], false))
  {
    var s := Login(body, users, req, libs, loginMs, expiresInSec).value;
    var i := FindOne(users, ByEmail(body.email.value)).value;
    assert s.token == SignToken(libs, i, loginMs, expiresInSec);
    FreshTokenAccepted(users, libs, i, loginMs, expiresInSec, nowMs);
    var c := Claims(i, loginMs / 1000, loginMs / 1000 + expiresInSec);
    assert IsCompactToken(libs.jwtSign(c));
    BearerHeaderRoundTrip(s.token, None, false, None);
  }

  /** After a password change at `changedMs` (stamped `changedMs - 1000`), a
      token for that user is refused as stale exactly when it was issued at
      least two whole seconds before the change's second, and is otherwise
      accepted: the back-dating leaves a window of up to two seconds. */
  lemma {:induction false} ChangeRevokesOlderTokens(users: seq<User>, libs: Libs, token: string, nowMs: nat,
                                                    i: nat, changedMs: int)
    requires StoreValid(users)
    requires i < |users| && Visible(users[i])
    requires changedMs >= PasswordChangedSlackMs
    requires users[i].passwordChangedAt == Some(changedMs - PasswordChangedSlackMs)
    requires VerifyToken(libs, token, nowMs).Ok? && VerifyToken(libs, token, nowMs).value.id == i
    ensures var iat := VerifyToken(libs, token, nowMs).value.iat;
            iat + 2 <= changedMs / 1000 <==> Authenticate(users, libs, token, nowMs) == Err(AppError(MsgPasswordChanged, 401))
    ensures var iat := VerifyToken(libs, token, nowMs).value.iat;
            iat + 2 > changedMs / 1000 ==> Authenticate(users, libs, token, nowMs) == Ok(Selected(users[i], false))
  {
    FindById(users, i);
    var iat := VerifyToken(libs, token, nowMs).value.iat;
    var at := changedMs - PasswordChangedSlackMs;
    assert ChangesPasswordAfter(Selected(users[i], false), iat) <==> (iat + 1) * 1000 <= at;
    assert (iat + 1) * 1000 <= at <==> iat + 2 <= changedMs / 1000;
  }

  /** `updatePassword` (with the comparison awaited): afterwards every token
      issued two or more seconds before the change's second is refused, and
      the token the answer carries is accepted until it expires. */
  lemma UpdatePasswordRevokesTokens(users: seq<User>, current: User, body: UpdatePasswordBody, req: Request,
                                    libs: Libs, salt: nat, changedMs: nat, expiresInSec: nat,
                                    oldToken: string, nowMs: nat)
    requires Sound(libs) && StoreValid(users)
    requires changedMs >= PasswordChangedSlackMs && changedMs <= nowMs
    requires UpdatePasswordSpec(users, current, body, req, libs, salt, changedMs, expiresInSec).0.Ok?
    requires VerifyToken(libs, oldToken, nowMs).Ok? && VerifyToken(libs, oldToken, nowMs).value.id == current.id
    requires VerifyToken(libs, oldToken, nowMs).value.iat + 2 <= changedMs / 1000
    requires nowMs / 1000 < changedMs / 1000 + expiresInSec
    ensures var r := UpdatePasswordSpec(users, current, body, req, libs, salt, changedMs, expiresInSec);
            && Authenticate(r.1, libs, oldToken, nowMs) == Err(AppError(MsgPasswordChanged, 401))
            && Authenticate(r.1, libs, r.0.value.token, nowMs).Ok?
  {
    var r := UpdatePasswordSpec(users, current, body, req, libs, salt, changedMs, expiresInSec);
    var i := FindOne(users, ById(current.id)).value;
    assert r.1[i].active == users[i].active;
    ChangeRevokesOlderTokens(r.1, libs, oldToken, nowMs, i, changedMs);
    SignedTokenVerifies(libs, i, changedMs, expiresInSec, nowMs);
    ChangeRevokesOlderTokens(r.1, libs, r.0.value.token, nowMs, i, changedMs);
  }

  /** `restrictTo('admin', 'lead-guide')`, the policy of the booking routes:
      the two other roles are turned away with 403. */
  lemma BookingPolicy(user: User)
    requires RoleValid(user)
    ensures RestrictTo(["admin", "lead-guide"], user).None? <==> user.role != "user" && user.role != "guide"
  {
  }

  // ---------------------------------------------------------------- login

  /** A visible user who presents the password whose hash is stored logs in. */
  lemma LoginAcceptsRightPassword(users: seq<User>, i: nat, password: string, salt: nat, req: Request,
                                  libs: Libs, nowMs: nat, expiresInSec: nat)
    requires Sound(libs) && StoreValid(users)
    requires i < |users| && Visible(users[i]) && users[i].email != "" && password != ""
    requires users[i].password == Some(libs.bcryptHash(password, salt))
    ensures Login(LoginBody(Some(users[i].email), Some(password)), users, req, libs, nowMs, expiresInSec)
              == Ok(SendToken(Selected(users[i], true), 200, req, libs, nowMs, expiresInSec))
  {
    FindByEmail(users, i);
  }

  // ---------------------------------------------------------------- password reset

  /** The token `forgotPassword` mails out lets `resetPassword` find the
      account until ten minutes have passed, so that an acceptable new password
      is then set, and is refused from then on, provided no other record held
      the same digest. */
  lemma ForgotThenReset(users: seq<User>, libs: Libs, email: string, randomBytes: seq<byte>, issuedMs: nat,
                        password: string, passwordConfirm: string, req: Request, salt: nat, nowMs: nat,
                        expiresInSec: nat)
    requires StoreValid(users)
    requires |randomBytes| == ResetTokenBytes
    requires ForgotPasswordSpec(users, libs, email, randomBytes, issuedMs, true).0.Ok?
    requires var token := ForgotPasswordSpec(users, libs, email, randomBytes, issuedMs, true).0.value;
             forall j :: 0 <= j < |users| ==> users[j].passwordResetToken != Some(libs.sha256Hex(token))
    ensures var f := ForgotPasswordSpec(users, libs, email, randomBytes, issuedMs, true);
            var i := FindOne(users, ByEmail(email)).value;
            var lookup := FindOne(f.1, ByResetToken(libs.sha256Hex(f.0.value), nowMs));
            && (nowMs < issuedMs + ResetTokenLifetimeMs ==> lookup == Some(i))
            && (nowMs < issuedMs + ResetTokenLifetimeMs && ProfileValid(users[i], libs) &&
                AcceptableNewPassword(password, passwordConfirm) ==>
                  ResetPasswordSpec(f.1, libs, f.0.value, password, passwordConfirm, req, salt, nowMs, expiresInSec).0.Ok?)
            && (nowMs >= issuedMs + ResetTokenLifetimeMs ==>
                  ResetPasswordSpec(f.1, libs, f.0.value, password, passwordConfirm, req, salt, nowMs, expiresInSec)
                    == (Err(AppError(MsgResetTokenInvalid, 400)), f.1))
  {
    var f := ForgotPasswordSpec(users, libs, email, randomBytes, issuedMs, true);
    var i := FindOne(users, ByEmail(email)).value;
    var d := libs.sha256Hex(f.0.value);
    var lookup := FindOne(f.1, ByResetToken(d, nowMs));
    assert f.1 == users[i := f.1[i]];
    if nowMs < issuedMs + ResetTokenLifetimeMs {
      assert Visible(f.1[i]) && Matches(f.1[i], ByResetToken(d, nowMs));
    }
  }

  /** A reset token works once: after a successful reset the same token is
      refused, provided the account it identified was the only one holding
      its digest. */
  lemma ResetIsSingleUse(users: seq<User>, libs: Libs, token: string, password: string, passwordConfirm: string,
                         req: Request, salt: nat, nowMs: nat, expiresInSec: nat,
                         password2: string, passwordConfirm2: string, salt2: nat, laterMs: nat)
    requires StoreValid(users)
    requires ResetPasswordSpec(users, libs, token, password, passwordConfirm, req, salt, nowMs, expiresInSec).0.Ok?
    requires forall j, k :: 0 <= j < k < |users| ==>
               !(users[j].passwordResetToken == Some(libs.sha256Hex(token)) &&
                 users[k].passwordResetToken == Some(libs.sha256Hex(token)))
    ensures var r := ResetPasswordSpec(users, libs, token, password, passwordConfirm, req, salt, nowMs, expiresInSec);
            ResetPasswordSpec(r.1, libs, token, password2, passwordConfirm2, req, salt2, laterMs, expiresInSec)
              == (Err(AppError(MsgResetTokenInvalid, 400)), r.1)
  {
    var r := ResetPasswordSpec(users, libs, token, password, passwordConfirm, req, salt, nowMs, expiresInSec);
    var d := libs.sha256Hex(token);
    var i := FindOne(users, ByResetToken(d, nowMs)).value;
    var lookup := FindOne(r.1, ByResetToken(d, laterMs));
  }

  // ---------------------------------------------------------------- the code as written

  /** As written, `updatePassword` never checks the current password: with a
      wrong one and an acceptable new one it replaces the password, where the
      awaited comparison answers 401 and changes nothing. */
  lemma UpdatePasswordIgnoresCurrentPassword(users: seq<User>, current: User, body: UpdatePasswordBody,
                                             req: Request, libs: Libs, salt: nat, nowMs: nat, expiresInSec: nat)
    requires StoreValid(users)
    requires FindOne(users, ById(current.id)).Some?
    requires var i := FindOne(users, ById(current.id)).value;
             && !CorrectPassword(libs, body.passwordCurrent, users[i].password.value)
             && SchemaValid(Selected(users[i], true).(password := Some(body.password),
                                                      passwordConfirm := Some(body.passwordConfirm)), libs)
    ensures var i := FindOne(users, ById(current.id)).value;
            var written := UpdatePasswordAsWritten(users, current, body, req, libs, salt, nowMs, expiresInSec);
            && written.0.Ok?
            && written.1[i].password == Some(libs.bcryptHash(body.password, salt))
            && UpdatePasswordSpec(users, current, body, req, libs, salt, nowMs, expiresInSec)
                 == (Err(AppError(MsgCurrentPasswordWrong, 401)), users)
  {
  }

  /** As written, `createNSendToken` calls `req.headers` as a function, so on
      any request that is not itself secure it throws after the caller's work
      is done: a login answers 500, and a reset or password change has already
      been saved. The intended flag marks the cookie secure behind a TLS proxy. */
  lemma PlainRequestCrashesSendToken(user: User, statusCode: nat, req: Request, libs: Libs,
                                     nowMs: nat, expiresInSec: nat)
    requires !req.secure
    ensures SendTokenAsWritten(user, statusCode, req, libs, nowMs, expiresInSec) == Err(Crashed(MsgHeadersNotCallable))
    ensures StatusOf(SendTokenAsWritten(user, statusCode, req, libs, nowMs, expiresInSec).error) == 500
    ensures SendToken(user, statusCode, req, libs, nowMs, expiresInSec).cookie.secure <==> req.forwardedProto == Some("https")
  {
  }
}
