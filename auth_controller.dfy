/** `controllers/authController.js`: issuing tokens, the `protect` and
    `isLoggedIn` middleware, `restrictTo`, `login`, `signup`, the two-step
    password reset and `updatePassword`. Each flow that loads, changes and saves
    a user document is a method over a `UserDoc` and the `UserCollection`; the
    pure function it is proved equal to gives the outcome and the collection
    afterwards, and that function's own contract says what the flow achieves. */
module AuthController {
  import opened Base
  import opened Text
  import opened Crypto
  import opened UserModel

  const MsgNotLoggedIn: string := "You are not logged in! Please log in to get access."
  const MsgUserGone: string := "The user belonging to this token does no longer exist."
  const MsgPasswordChanged: string := "User recently changed password! Please log in again."
  const MsgForbidden: string := "You do not have permission to perform this action."
  const MsgMissingCredentials: string := "Please provide email and password!"
  const MsgIncorrectCredentials: string := "Incorrect email or password"
  const MsgNoSuchEmail: string := "There is no user with this email address."
  const MsgEmailFailed: string := "There was an error sending the email. Try again later!"
  const MsgResetTokenInvalid: string := "Token is invalid or has expired"
  const MsgCurrentPasswordWrong: string := "Your current password is wrong"
  const MsgHeadersNotCallable: string := "req.headers is not a function"
  const MsgNoUserLoaded: string := "Cannot read property 'correctPassword' of null"
  const MsgWelcomeFailed: string := "sending the welcome email failed"
  const CookieName: string := "jwt"

  /** What the auth code reads of a request: the `Authorization` header, the
      `jwt` cookie, `req.secure` and the `X-Forwarded-Proto` header. */
  datatype Request = Request(
    authorization: Option<string>,
    cookieJwt: Option<string>,
    secure: bool,
    forwardedProto: Option<string>)

  datatype Cookie = Cookie(name: string, value: string, httpOnly: bool, secure: bool)

  /** The answer of `createNSendToken`: status, token, the `jwt` cookie and the
      user as serialized. */
  datatype Session = Session(statusCode: nat, token: string, cookie: Cookie, user: User)

  /** `req.user` and `res.locals.user`, the request state the middleware sets. */
  class Context {
    var reqUser: Option<User>
    var localsUser: Option<User>

    constructor ()
      ensures reqUser.None? && localsUser.None?
    {
      reqUser, localsUser := None, None;
    }
  }

  // ---------------------------------------------------------------- tokens

  /** The `secure` option of the cookie as line 35 computes it. `req.headers`
      is an object, so calling it throws whenever `req.secure` is false. */
  function CookieSecureAsWritten(req: Request): (r: Result<bool, Failure>)
    ensures r.Ok? <==> req.secure
    ensures r.Ok? ==> r.value
  {
    if req.secure then Ok(true) else Err(Crashed(MsgHeadersNotCallable))
  }

  /** The evidently intended flag: TLS, directly or as reported by the proxy. */
  function CookieSecure(req: Request): (secure: bool)
    ensures secure <==> req.secure || req.forwardedProto == Some("https")
    ensures CookieSecureAsWritten(req).Ok? ==> secure == CookieSecureAsWritten(req).value
  {
    req.secure || req.forwardedProto == Some("https")
  }

  /** `createNSendToken` as written: it throws before answering when the
      request is not secure. */
  function SendTokenAsWritten(user: User, statusCode: nat, req: Request, libs: Libs,
                              nowMs: nat, expiresInSec: nat): (r: Result<Session, Failure>)
    ensures r.Ok? <==> req.secure
    ensures r.Ok? ==> r.value == SendToken(user, statusCode, req, libs, nowMs, expiresInSec)
  {
    match CookieSecureAsWritten(req)
    case Err(e) => Err(e)
    case Ok(secure) =>
      var token := SignToken(libs, user.id, nowMs, expiresInSec);
      Ok(Session(statusCode, token, Cookie(CookieName, token, true, secure), user.(password := None)))
  }

  /** `createNSendToken` with the intended cookie flag: a fresh token for the
      user's id, set as an HTTP-only `jwt` cookie and returned, and the user
      serialized with the password removed. */
  function SendToken(user: User, statusCode: nat, req: Request, libs: Libs,
                     nowMs: nat, expiresInSec: nat): (s: Session)
    ensures s.user.password.None? && s.user.(password := user.password) == user
    ensures s.token == SignToken(libs, user.id, nowMs, expiresInSec)
    ensures s.cookie.name == CookieName && s.cookie.value == s.token && s.cookie.httpOnly
    ensures s.cookie.secure == CookieSecure(req)
    ensures s.statusCode == statusCode
  {
    var token := SignToken(libs, user.id, nowMs, expiresInSec);
    Session(statusCode, token, Cookie(CookieName, token, true, CookieSecure(req)), user.(password := None))
  }

  // ---------------------------------------------------------------- protect

  predicate HasBearerHeader(req: Request)
  {
    Truthy(req.authorization) && StartsWith(req.authorization.value, "Bearer")
  }

  /** Step 1 of `protect`: a header starting with `Bearer` supplies the token
      (its second space-separated piece) and the cookie is then never looked at;
      otherwise the `jwt` cookie does. An empty token counts as none. */
  function ExtractToken(req: Request): (token: Option<string>)
    ensures token.Some? ==> token.value != ""
    ensures HasBearerHeader(req) ==>
              var parts := Split(req.authorization.value, ' ');
              token == (if |parts| > 1 && parts[1] != "" then Some(parts[1]) else None)
    ensures HasBearerHeader(req) && token.Some? ==> ' ' !in token.value
    ensures !HasBearerHeader(req) ==> token == (if Truthy(req.cookieJwt) then req.cookieJwt else None)
  {
    var candidate :=
      if HasBearerHeader(req) then
        var parts := Split(req.authorization.value, ' ');
        if |parts| > 1 then Some(parts[1]) else None
      else if Truthy(req.cookieJwt) then req.cookieJwt
      else None;
    if Truthy(candidate) then candidate else None
  }

  /** Steps 2 to 4 of `protect` (and of `isLoggedIn`): verify the token, load
      the user it names through the find filter, and refuse a token issued
      before the user's last password change. */
  function Authenticate(users: seq<User>, libs: Libs, token: string, nowMs: nat): (r: Result<User, Failure>)
    ensures r.Err? ==> StatusOf(r.error) == 401
    ensures VerifyToken(libs, token, nowMs).Err? ==> r == Err(VerifyToken(libs, token, nowMs).error)
    ensures VerifyToken(libs, token, nowMs).Ok? && FindOne(users, ById(VerifyToken(libs, token, nowMs).value.id)).None? ==>
              r == Err(AppError(MsgUserGone, 401))
    ensures r.Err? && VerifyToken(libs, token, nowMs).Ok? && FindOne(users, ById(VerifyToken(libs, token, nowMs).value.id)).Some? ==>
              r == Err(AppError(MsgPasswordChanged, 401))
    ensures r.Ok? ==>
              && VerifyToken(libs, token, nowMs).Ok?
              && var claims := VerifyToken(libs, token, nowMs).value;
              && FindOne(users, ById(claims.id)).Some?
              && r.value == Selected(users[FindOne(users, ById(claims.id)).value], false)
              && !ChangesPasswordAfter(r.value, claims.iat)
    ensures r.Ok? ==> r.value.password.None?
    ensures VerifyToken(libs, token, nowMs).Ok? && FindOne(users, ById(VerifyToken(libs, token, nowMs).value.id)).Some? &&
            !ChangesPasswordAfter(users[FindOne(users, ById(VerifyToken(libs, token, nowMs).value.id)).value],
                                  VerifyToken(libs, token, nowMs).value.iat) ==>
              r.Ok?
  {
    match VerifyToken(libs, token, nowMs)
    case Err(e) => Err(e)
    case Ok(claims) =>
      match FindOne(users, ById(claims.id))
      case None => Err(AppError(MsgUserGone, 401))
      case Some(i) =>
        var currentUser := Selected(users[i], false);
        if ChangesPasswordAfter(currentUser, claims.iat) then Err(AppError(MsgPasswordChanged, 401))
        else Ok(currentUser)
  }

  /** The decision `protect` takes: the user to attach, or the 401 to answer. */
  function ProtectDecision(req: Request, users: seq<User>, libs: Libs, nowMs: nat): (r: Result<User, Failure>)
    ensures r.Err? ==> StatusOf(r.error) == 401
    ensures ExtractToken(req).None? ==> r == Err(AppError(MsgNotLoggedIn, 401))
    ensures ExtractToken(req).Some? ==> r == Authenticate(users, libs, ExtractToken(req).value, nowMs)
  {
    match ExtractToken(req)
    case None => Err(AppError(MsgNotLoggedIn, 401))
    case Some(token) => Authenticate(users, libs, token, nowMs)
  }

  /** `protect`: on success `req.user` and `res.locals.user` are the loaded
      user; on failure neither is touched and the error goes to `next`. */
  method Protect(req: Request, db: UserCollection, ctx: Context, libs: Libs, nowMs: nat)
    returns (failure: Option<Failure>)
    modifies ctx
    ensures match ProtectDecision(req, db.users, libs, nowMs)
            case Ok(u) => failure.None? && ctx.reqUser == Some(u) && ctx.localsUser == Some(u)
            case Err(e) => failure == Some(e) && unchanged(ctx)
  {
    var token: Option<string> := None;
    if Truthy(req.authorization) && StartsWith(req.authorization.value, "Bearer") {
      var parts := Split(req.authorization.value, ' ');
      if |parts| > 1 {
        token := Some(parts[1]);
      }
    } else if Truthy(req.cookieJwt) {
      token := req.cookieJwt;
    }
    if !Truthy(token) {
      return Some(AppError(MsgNotLoggedIn, 401));
    }
    var decoded := VerifyToken(libs, token.value, nowMs);
    if decoded.Err? {
      return Some(decoded.error);
    }
    var found := FindOne(db.users, ById(decoded.value.id));
    if found.None? {
      return Some(AppError(MsgUserGone, 401));
    }
    var currentUser := Selected(db.users[found.value], false);
    if ChangesPasswordAfter(currentUser, decoded.value.iat) {
      return Some(AppError(MsgPasswordChanged, 401));
    }
    ctx.reqUser := Some(currentUser);
    ctx.localsUser := Some(currentUser);
    failure := None;
  }

  /** The user `isLoggedIn` exposes to the templates: only from the `jwt`
      cookie, and only when every check of `protect` passes. */
  function SoftAuthenticate(req: Request, users: seq<User>, libs: Libs, nowMs: nat): (u: Option<User>)
    ensures u.Some? ==> Truthy(req.cookieJwt) && Authenticate(users, libs, req.cookieJwt.value, nowMs) == Ok(u.value)
    ensures Truthy(req.cookieJwt) && Authenticate(users, libs, req.cookieJwt.value, nowMs).Ok? ==> u.Some?
  {
    if !Truthy(req.cookieJwt) then None
    else match Authenticate(users, libs, req.cookieJwt.value, nowMs)
      case Ok(user) => Some(user)
      case Err(_) => None
  }

  /** `isLoggedIn`: never passes an error on, whatever the cookie holds; sets
      `res.locals.user` on full success and leaves `req.user` alone. */
  method IsLoggedIn(req: Request, db: UserCollection, ctx: Context, libs: Libs, nowMs: nat)
    modifies ctx
    ensures ctx.reqUser == old(ctx.reqUser)
    ensures ctx.localsUser == match SoftAuthenticate(req, db.users, libs, nowMs)
                              case Some(u) => Some(u)
                              case None => old(ctx.localsUser)
  {
    if Truthy(req.cookieJwt) {
      var decoded := VerifyToken(libs, req.cookieJwt.value, nowMs);
      if decoded.Err? {
        return;   // the catch block
      }
      var found := FindOne(db.users, ById(decoded.value.id));
      if found.None? {
        return;
      }
      var currentUser := Selected(db.users[found.value], false);
      if ChangesPasswordAfter(currentUser, decoded.value.iat) {
        return;
      }
      ctx.localsUser := Some(currentUser);
    }
  }

  /** `restrictTo(...roles)` applied to the user `protect` attached. */
  function RestrictTo(roles: seq<string>, user: User): (r: Option<Failure>)
    ensures r.None? <==> user.role in roles
    ensures r.Some? ==> r.value == AppError(MsgForbidden, 403)
  {
    if user.role in roles then None else Some(AppError(MsgForbidden, 403))
  }

  // ---------------------------------------------------------------- login

  /** `req.body` of a login; a missing field is `None`. */
  datatype LoginBody = LoginBody(email: Option<string>, password: Option<string>)

  /** `login`: 400 when a field is missing; one and the same 401 for an unknown
      email and for a wrong password; otherwise a session for the user found. */
  function Login(body: LoginBody, users: seq<User>, req: Request, libs: Libs,
                 nowMs: nat, expiresInSec: nat): (r: Result<Session, Failure>)
    requires StoreValid(users)
    ensures !Truthy(body.email) || !Truthy(body.password) ==> r == Err(AppError(MsgMissingCredentials, 400))
    ensures r.Err? ==> r.error in {AppError(MsgMissingCredentials, 400), AppError(MsgIncorrectCredentials, 401)}
    ensures Truthy(body.email) && Truthy(body.password) && FindOne(users, ByEmail(body.email.value)).None? ==>
              r == Err(AppError(MsgIncorrectCredentials, 401))
    ensures Truthy(body.email) && Truthy(body.password) && FindOne(users, ByEmail(body.email.value)).Some? &&
            !CorrectPassword(libs, body.password.value, users[FindOne(users, ByEmail(body.email.value)).value].password.value) ==>
              r == Err(AppError(MsgIncorrectCredentials, 401))
    ensures Truthy(body.email) && Truthy(body.password) && FindOne(users, ByEmail(body.email.value)).Some? &&
            CorrectPassword(libs, body.password.value, users[FindOne(users, ByEmail(body.email.value)).value].password.value) ==>
              r.Ok?
    ensures r.Ok? ==>
              && body.email.Some? && body.password.Some?
              && var found := FindOne(users, ByEmail(body.email.value));
              && found.Some?
              && CorrectPassword(libs, body.password.value, users[found.value].password.value)
              && r.value == SendToken(Selected(users[found.value], true), 200, req, libs, nowMs, expiresInSec)
  {
    if !Truthy(body.email) || !Truthy(body.password) then Err(AppError(MsgMissingCredentials, 400))
    else
      match FindOne(users, ByEmail(body.email.value))
      case None => Err(AppError(MsgIncorrectCredentials, 401))
      case Some(i) =>
        var user := Selected(users[i], true);
        if !CorrectPassword(libs, body.password.value, user.password.value) then
          Err(AppError(MsgIncorrectCredentials, 401))
        else Ok(SendToken(user, 200, req, libs, nowMs, expiresInSec))
  }

  // ---------------------------------------------------------------- signup

  /** `req.body` of a signup; an absent string field is "". */
  datatype SignupBody = SignupBody(
    name: string, email: string, password: string, passwordConfirm: string, role: Option<string>)

  /** The document `User.create(req.body)` builds: the body's paths, a given
      `role` included, over the schema defaults. */
  function NewUser(id: nat, body: SignupBody): (u: User)
    ensures u.id == id && u.name == body.name && u.email == body.email
    ensures u.role == (if body.role.Some? then body.role.value else DefaultRole)
    ensures u.photo == DefaultPhoto && u.active == Some(true)
    ensures u.passwordChangedAt.None? && u.passwordResetToken.None? && u.passwordResetExpires.None?
    ensures u.password == Some(body.password) && u.passwordConfirm == Some(body.passwordConfirm)
  {
    User(id, body.name, body.email, DefaultPhoto, if body.role.Some? then body.role.value else DefaultRole,
         Some(body.password), Some(body.passwordConfirm), None, None, None, Some(true))
  }

  /** `signup`: create (validate, hash, insert), then the welcome email, whose
      failure is not caught, then the session. The outcome and the collection
      afterwards. */
  function SignupSpec(body: SignupBody, users: seq<User>, req: Request, libs: Libs, salt: nat,
                      nowMs: nat, welcomeSent: bool, expiresInSec: nat): (r: (Result<Session, Failure>, seq<User>))
    requires StoreValid(users)
    ensures StoreValid(r.1)
    ensures !SchemaValid(NewUser(|users|, body), libs) ==>
              r == (Err(ValidationFailed(ValidationErrors(NewUser(|users|, body), libs))), users)
    ensures JsLength(body.password) < MinPasswordLength ==>
              r.1 == users && r.0.Err? && r.0.error.ValidationFailed? && "password" in r.0.error.paths
    ensures SchemaValid(NewUser(|users|, body), libs) && EmailTaken(users, body.email, |users|) ==>
              r == (Err(DuplicateKey("email")), users)
    ensures SchemaValid(NewUser(|users|, body), libs) && !EmailTaken(users, body.email, |users|) ==>
              && |r.1| == |users| + 1 && r.1[..|users|] == users
              && var created := r.1[|users|];
              && created == HashedForSave(NewUser(|users|, body), true, libs, salt)
              && created.role == NewUser(|users|, body).role && created.active == Some(true)
              && created.passwordChangedAt.None? && created.passwordConfirm.None?
              && created.email == body.email && created.password.Some?
              && (Sound(libs) ==> CorrectPassword(libs, body.password, created.password.value))
              && (r.0.Ok? <==> welcomeSent)
              && (r.0.Ok? ==> r.0.value == SendToken(created, 201, req, libs, nowMs, expiresInSec))
  {
    var s := SaveDoc(users, NewUser(|users|, body), true, true, libs, salt, nowMs, true);
    if s.failure.Some? then (Err(s.failure.value), users)
    else if !welcomeSent then (Err(Crashed(MsgWelcomeFailed)), s.users)
    else (Ok(SendToken(s.doc, 201, req, libs, nowMs, expiresInSec)), s.users)
  }

  /** `signup`. */
  method Signup(body: SignupBody, db: UserCollection, req: Request, libs: Libs, salt: nat, nowMs: nat,
                welcomeSent: bool, expiresInSec: nat) returns (outcome: Result<Session, Failure>)
    requires StoreValid(db.users)
    modifies db
    ensures (outcome, db.users) == SignupSpec(body, old(db.users), req, libs, salt, nowMs, welcomeSent, expiresInSec)
  {
    var newUser := new UserDoc.Create(NewUser(|db.users|, body));
    var failure := newUser.Save(db, libs, salt, nowMs, true);
    if failure.Some? {
      return Err(failure.value);
    }
    if !welcomeSent {
      return Err(Crashed(MsgWelcomeFailed));
    }
    outcome := Ok(SendToken(newUser.Snapshot(), 201, req, libs, nowMs, expiresInSec));
  }

  // ---------------------------------------------------------------- password reset

  /** The record after a successful password change at `nowMs`: the new hash,
      no confirmation, and the change stamped one second back. */
  function PasswordReplaced(u: User, password: string, libs: Libs, salt: nat, nowMs: nat): User
  {
    u.(password := Some(libs.bcryptHash(password, salt)), passwordConfirm := None,
       passwordChangedAt := Some(nowMs - PasswordChangedSlackMs))
  }

  /** `forgotPassword`: the outcome (`Ok` carries the plain token the email
      delivered) and the collection afterwards. */
  function ForgotPasswordSpec(users: seq<User>, libs: Libs, email: string, randomBytes: seq<byte>,
                              nowMs: nat, mailSent: bool): (r: (Result<string, Failure>, seq<User>))
    requires StoreValid(users)
    requires |randomBytes| == ResetTokenBytes
    ensures StoreValid(r.1)
    ensures FindOne(users, ByEmail(email)).None? ==> r == (Err(AppError(MsgNoSuchEmail, 404)), users)
    ensures FindOne(users, ByEmail(email)).Some? ==>
              var i := FindOne(users, ByEmail(email)).value;
              var token := HexEncode(randomBytes);
              if mailSent then
                r == (Ok(token), users[i := users[i].(passwordResetToken := Some(libs.sha256Hex(token)),
                                                      passwordResetExpires := Some(nowMs + ResetTokenLifetimeMs))])
              else
                r == (Err(AppError(MsgEmailFailed, 500)),
                      users[i := users[i].(passwordResetToken := None, passwordResetExpires := None)])
  {
    match FindOne(users, ByEmail(email))
    case None => (Err(AppError(MsgNoSuchEmail, 404)), users)
    case Some(i) =>
      var token := HexEncode(randomBytes);
      var issued := Selected(users[i], false).(passwordResetToken := Some(libs.sha256Hex(token)),
                                               passwordResetExpires := Some(nowMs + ResetTokenLifetimeMs));
      var first := SaveDoc(users, issued, false, false, libs, 0, nowMs, false);
      if mailSent then (Ok(token), first.users)
      else
        var cleared := first.doc.(passwordResetToken := None, passwordResetExpires := None);
        var second := SaveDoc(first.users, cleared, false, false, libs, 0, nowMs, false);
        assert first.users[i].password == users[i].password && first.users[i].active == users[i].active;
        assert second.users[i] == users[i].(passwordResetToken := None, passwordResetExpires := None);
        assert second.users == users[i := second.users[i]];
        (Err(AppError(MsgEmailFailed, 500)), second.users)
  }

  /** `forgotPassword`. Neither save changes the password, so no salt is drawn. */
  method ForgotPassword(db: UserCollection, libs: Libs, email: string, randomBytes: seq<byte>,
                        nowMs: nat, mailSent: bool) returns (outcome: Result<string, Failure>)
    requires StoreValid(db.users)
    requires |randomBytes| == ResetTokenBytes
    modifies db
    ensures (outcome, db.users) == ForgotPasswordSpec(old(db.users), libs, email, randomBytes, nowMs, mailSent)
  {
    var found := FindOne(db.users, ByEmail(email));
    if found.None? {
      return Err(AppError(MsgNoSuchEmail, 404));
    }
    var user := new UserDoc.Load(db.users[found.value], false);
    var resetToken := user.CreatePasswordResetToken(libs, randomBytes, nowMs);
    var _ := user.Save(db, libs, 0, nowMs, false);
    if mailSent {
      return Ok(resetToken);
    }
    user.passwordResetToken := None;
    user.passwordResetExpires := None;
    var _ := user.Save(db, libs, 0, nowMs, false);
    outcome := Err(AppError(MsgEmailFailed, 500));
  }

  /** `resetPassword`: the outcome and the collection afterwards. */
  function ResetPasswordSpec(users: seq<User>, libs: Libs, presentedToken: string, password: string,
                             passwordConfirm: string, req: Request, salt: nat, nowMs: nat,
                             expiresInSec: nat): (r: (Result<Session, Failure>, seq<User>))
    requires StoreValid(users)
    ensures StoreValid(r.1)
    ensures r.0.Err? ==> r.1 == users
    ensures FindOne(users, ByResetToken(libs.sha256Hex(presentedToken), nowMs)).None? ==>
              r.0 == Err(AppError(MsgResetTokenInvalid, 400))
    ensures FindOne(users, ByResetToken(libs.sha256Hex(presentedToken), nowMs)).Some? ==>
              && (JsLength(password) < MinPasswordLength ==> r.0.Err? && r.0.error.ValidationFailed? && "password" in r.0.error.paths)
              && (password != passwordConfirm ==> r.0.Err? && r.0.error.ValidationFailed? && "passwordConfirm" in r.0.error.paths)
    ensures var found := FindOne(users, ByResetToken(libs.sha256Hex(presentedToken), nowMs));
            found.Some? ==>
              (r.0.Ok? <==> ProfileValid(users[found.value], libs) && AcceptableNewPassword(password, passwordConfirm))
    ensures r.0.Ok? ==>
              && var found := FindOne(users, ByResetToken(libs.sha256Hex(presentedToken), nowMs));
              && found.Some?
              && var i := found.value;
              && users[i].passwordResetToken == Some(libs.sha256Hex(presentedToken))
              && users[i].passwordResetExpires.Some? && users[i].passwordResetExpires.value > nowMs
              && r.1 == users[i := PasswordReplaced(users[i], password, libs, salt, nowMs)
                                     .(passwordResetToken := None, passwordResetExpires := None)]
              && r.0.value == SendToken(Selected(r.1[i], false), 200, req, libs, nowMs, expiresInSec)
  {
    var hashedToken := libs.sha256Hex(presentedToken);
    match FindOne(users, ByResetToken(hashedToken, nowMs))
    case None => (Err(AppError(MsgResetTokenInvalid, 400)), users)
    case Some(i) =>
      var doc := Selected(users[i], false).(password := Some(password), passwordConfirm := Some(passwordConfirm),
                                            passwordResetToken := None, passwordResetExpires := None);
      var s := SaveDoc(users, doc, false, true, libs, salt, nowMs, true);
      if s.failure.Some? then (Err(s.failure.value), users)
      else (Ok(SendToken(s.doc, 200, req, libs, nowMs, expiresInSec)), s.users)
  }

  /** `resetPassword`. */
  method ResetPassword(db: UserCollection, libs: Libs, presentedToken: string, password: string,
                       passwordConfirm: string, req: Request, salt: nat, nowMs: nat, expiresInSec: nat)
    returns (outcome: Result<Session, Failure>)
    requires StoreValid(db.users)
    modifies db
    ensures (outcome, db.users) == ResetPasswordSpec(old(db.users), libs, presentedToken, password,
                                                     passwordConfirm, req, salt, nowMs, expiresInSec)
  {
    var hashedToken := libs.sha256Hex(presentedToken);
    var found := FindOne(db.users, ByResetToken(hashedToken, nowMs));
    if found.None? {
      return Err(AppError(MsgResetTokenInvalid, 400));
    }
    var user := new UserDoc.Load(db.users[found.value], false);
    user.SetPassword(password, passwordConfirm);
    user.passwordResetToken := None;
    user.passwordResetExpires := None;
    var failure := user.Save(db, libs, salt, nowMs, true);
    if failure.Some? {
      return Err(failure.value);
    }
    outcome := Ok(SendToken(user.Snapshot(), 200, req, libs, nowMs, expiresInSec));
  }

  // ---------------------------------------------------------------- update password

  /** `req.body` of `updatePassword`. */
  datatype UpdatePasswordBody = UpdatePasswordBody(passwordCurrent: string, password: string, passwordConfirm: string)

  /** `updatePassword` for the user `protect` attached. `checkCurrent` says
      whether the current password is really checked: as written, line 290
      tests the Promise that `correctPassword` returns, which is always truthy,
      so the check never rejects (`checkCurrent == false`). */
  function UpdatePasswordWith(checkCurrent: bool, users: seq<User>, current: User, body: UpdatePasswordBody,
                              req: Request, libs: Libs, salt: nat, nowMs: nat,
                              expiresInSec: nat): (r: (Result<Session, Failure>, seq<User>))
    requires StoreValid(users)
    ensures StoreValid(r.1)
    ensures r.0.Err? ==> r.1 == users
  {
    match FindOne(users, ById(current.id))
    case None => (Err(Crashed(MsgNoUserLoaded)), users)
    case Some(i) =>
      var user := Selected(users[i], true);
      if checkCurrent && !CorrectPassword(libs, body.passwordCurrent, user.password.value) then
        (Err(AppError(MsgCurrentPasswordWrong, 401)), users)
      else
        var doc := user.(password := Some(body.password), passwordConfirm := Some(body.passwordConfirm));
        var s := SaveDoc(users, doc, false, true, libs, salt, nowMs, true);
        if s.failure.Some? then (Err(s.failure.value), users)
        else
          assert s.doc.id == i && s.doc.email == users[i].email && s.doc.password.Some?;
          (Ok(SendToken(s.doc, 200, req, libs, nowMs, expiresInSec)), s.users)
  }

  function UpdatePasswordAsWritten(users: seq<User>, current: User, body: UpdatePasswordBody, req: Request,
                                   libs: Libs, salt: nat, nowMs: nat,
                                   expiresInSec: nat): (r: (Result<Session, Failure>, seq<User>))
    requires StoreValid(users)
    ensures r.0 != Err(AppError(MsgCurrentPasswordWrong, 401))
  {
    UpdatePasswordWith(false, users, current, body, req, libs, salt, nowMs, expiresInSec)
  }

  /** `updatePassword` with the comparison awaited. */
  function UpdatePasswordSpec(users: seq<User>, current: User, body: UpdatePasswordBody, req: Request,
                              libs: Libs, salt: nat, nowMs: nat,
                              expiresInSec: nat): (r: (Result<Session, Failure>, seq<User>))
    requires StoreValid(users)
    ensures StoreValid(r.1)
    ensures r.0.Err? ==> r.1 == users
    ensures var found := FindOne(users, ById(current.id));
            found.Some? && !CorrectPassword(libs, body.passwordCurrent, users[found.value].password.value) ==>
              r.0 == Err(AppError(MsgCurrentPasswordWrong, 401))
    ensures var found := FindOne(users, ById(current.id));
            found.Some? && CorrectPassword(libs, body.passwordCurrent, users[found.value].password.value) ==>
              (r.0.Ok? <==> ProfileValid(users[found.value], libs) && AcceptableNewPassword(body.password, body.passwordConfirm))
    ensures r.0.Ok? ==>
              && var found := FindOne(users, ById(current.id));
              && found.Some?
              && var i := found.value;
              && CorrectPassword(libs, body.passwordCurrent, users[i].password.value)
              && r.1 == users[i := PasswordReplaced(users[i], body.password, libs, salt, nowMs)]
              && r.0.value == SendToken(r.1[i].(active := None), 200, req, libs, nowMs, expiresInSec)
  {
    UpdatePasswordWith(true, users, current, body, req, libs, salt, nowMs, expiresInSec)
  }

  /** `updatePassword`, with the comparison awaited. */
  method UpdatePassword(db: UserCollection, ctx: Context, body: UpdatePasswordBody, req: Request,
                        libs: Libs, salt: nat, nowMs: nat, expiresInSec: nat)
    returns (outcome: Result<Session, Failure>)
    requires ctx.reqUser.Some?
    requires StoreValid(db.users)
    modifies db
    ensures (outcome, db.users) == UpdatePasswordSpec(old(db.users), ctx.reqUser.value, body, req, libs, salt,
                                                      nowMs, expiresInSec)
  {
    var found := FindOne(db.users, ById(ctx.reqUser.value.id));
    if found.None? {
      return Err(Crashed(MsgNoUserLoaded));
    }
    var user := new UserDoc.Load(db.users[found.value], true);
    if !CorrectPassword(libs, body.passwordCurrent, user.password.value) {
      return Err(AppError(MsgCurrentPasswordWrong, 401));
    }
    user.SetPassword(body.password, body.passwordConfirm);
    var failure := user.Save(db, libs, salt, nowMs, true);
    if failure.Some? {
      return Err(failure.value);
    }
    outcome := Ok(SendToken(user.Snapshot(), 200, req, libs, nowMs, expiresInSec));
  }
}
