# Natours authentication and document rules, in Dafny

This project models the part of the Natours tour-booking server that decides who may do what, together with the rules of the two documents those decisions rest on:

- **Auth middleware and flows** (`controllers/authController.js`):
  - `protect` takes the token from the `Authorization: Bearer` header, or else from the `jwt` cookie. It verifies the token, loads the user it names and rejects a token older than the user's last password change. It then sets `req.user` and `res.locals.user`.
  - `isLoggedIn` is the soft version used for rendered pages, and `restrictTo` is the role gate.
  - `login`, `signup` and `createNSendToken` issue tokens and strip the password from the answer.
  - The password-reset exchange is `forgotPassword` then `resetPassword`; `updatePassword` changes the password of a logged-in user.
- **User document** (`models/userModel.js`):
  - the schema's validators and defaults;
  - the `pre('save')` hook that hashes a modified password and drops the confirmation;
  - the `pre('save')` hook that stamps `passwordChangedAt = now - 1000` on a changed password of an existing user;
  - the `pre(/^find/)` filter that hides soft-deleted users;
  - `correctPassword`, `changesPasswordAfter` and `createPasswordResetToken`.
- **Tour document** (`models/tourModel.js`): the trim setters, defaults and validators, the `priceDiscount < price` rule, the slug recomputed on every save, and the find hook that hides secret tours.

Layout:

- `base.dfy`: `Option`, `Result`, the `Failure` kinds that reach the error boundary, JavaScript truthiness and `parseInt(ms / 1000)`.
- `text.dfy`: JavaScript's `split`, `startsWith`, `trim`, UTF-16 `length` and hex encoding.
- `crypto.dfy`: bcrypt, sha256, `jsonwebtoken` and `validator.isEmail`.
  - They are function values in `Libs`. `Sound` holds the facts the code relies on: `compare(p, hash(p))`, and verification returning what was signed.
  - This file also defines signing and verifying at a given time.
- `user_model.dfy`: the `User` record, the validators, the hooks, the find filter and the collection. `UserDoc` is the in-memory Mongoose document whose methods update its fields. `UserCollection` holds the records in insertion order, with ids equal to positions.
- `auth_controller.dfy`: each flow is an imperative method over `UserDoc`, `UserCollection` and the request `Context`. The method is proved equal to a pure function; that function's contract says what the flow achieves, and the lemmas are stated over it.
- `auth_properties.dfy`: properties that span several operations.
- `tour_model.dfy`: the tour record, `TourDoc` with its slug hook, `TourCollection` and the query hook.

Time is one `nowMs` per request, standing for `Date.now()`. The salt, the random bytes of the reset token and the success of each email are parameters.

Behaviour of the code that a reader might not expect, and that the model keeps:

- `login` with a missing field answers its own 400 ("Please provide email and password!"). It is not the undifferentiated credentials error.
- `signup` awaits the welcome email outside any `try`. If the email fails, the request fails, but the user is already stored. `SignupSpec` states this.
- `passwordChangedAt` is back-dated by one second and compared in whole seconds. A token issued up to two seconds before a password change therefore stays valid (`ChangeRevokesOlderTokens`).
- The email path is declared with `lowerCase` rather than `lowercase`, so Mongoose does not lower-case it. The model compares emails exactly as given.

## Model

| member | source | states |
|---|---|---|
| Base.SecondsOf | models/userModel.js:99 | `parseInt(ms / 1000)` truncates toward zero: for `ms >= 0`, `s*1000 <= ms < s*1000 + 1000`, and symmetrically for negative `ms` |
| Text.Split | controllers/authController.js:117 | `split(' ')` yields at least one piece and no piece contains the separator |
| Text.JoinSplit | controllers/authController.js:117 | joining the pieces of a split with the separator gives back the original string |
| Text.SplitJoin | controllers/authController.js:117 | splitting pieces joined by a separator they do not contain gives back exactly those pieces |
| Text.StartsWith | controllers/authController.js:115 | `startsWith(prefix)` holds iff the text is the prefix followed by something |
| Text.JsLength | models/userModel.js:32 | `length` counts UTF-16 code units: one for a character in the BMP and two for one outside it, between the number of characters and twice that |
| Text.JsLengthAppend | models/userModel.js:32 | the length of a concatenation is the sum of the lengths, which with the one-character values makes `JsLength` the UTF-16 count |
| Text.TrimStart | models/tourModel.js:16 | the result is a suffix, everything dropped is white space, and it does not start with white space |
| Text.TrimEnd | models/tourModel.js:16 | the result is a prefix, everything dropped is white space, and it does not end with white space |
| Text.Trim | models/tourModel.js:16 | `trim()` returns the infix left after removing white space from both ends: everything before and after it is white space, and it neither starts nor ends with white space |
| Text.TrimIdempotent | models/tourModel.js:16 | trimming a trimmed string changes nothing, so the setter is stable across saves |
| Text.HexEncode | models/userModel.js:108 | `toString('hex')` gives two characters per byte, each a lower-case hex digit |
| Text.HexEncodeDigits | models/userModel.js:108 | characters `2i` and `2i+1` are the hex digits of byte `i`, high nibble first |
| Text.HexEncodeInjective | models/userModel.js:108 | distinct byte strings give distinct hex tokens |
| Crypto.SignToken | controllers/authController.js:10-14 | the signed token is compact and decodes to the user's id, the current second as `iat`, and `iat` plus the lifetime as `exp` |
| Crypto.VerifyToken | controllers/authController.js:131 | a token verifies iff its signature decodes and its `exp` second has not been reached; the result is the decoded claims; a failure says whether the token was merely expired |
| Crypto.SignedTokenVerifies | controllers/authController.js:10-14 | a token this server signed has no space, verifies to the id and `iat` it was signed with until `exp`, and is rejected as expired from then on |
| UserModel.ValidationErrors | models/userModel.js:6-54 | no errors iff the record meets every schema rule; `password` is reported iff it is missing or shorter than 8; `passwordConfirm` iff it is missing, empty or differs from `password`; `role` iff it is not one of the four roles |
| UserModel.PasswordChangeValid | models/userModel.js:6-54 | setting a password and confirmation passes validation iff name, email and role do and the password has at least 8 code units and equals its confirmation |
| UserModel.HashedForSave | models/userModel.js:56-66 | an unmodified password leaves the record alone; a modified one becomes a hash that `compare` accepts for the plain password, and the confirmation is dropped; nothing else changes |
| UserModel.StampedForSave | models/userModel.js:68-76 | `passwordChangedAt` becomes `now - 1000` exactly when the password was modified on an existing record; otherwise the record is unchanged |
| UserModel.ChangesPasswordAfter | models/userModel.js:97-105 | false when no change is recorded; otherwise, for a non-negative stamp, true iff `(t + 1) * 1000 <= passwordChangedAt`, i.e. `t` is before the change's whole second |
| UserModel.CorrectPassword | models/userModel.js:85-95 | `bcrypt.compare` of a password against a hash made of that password succeeds |
| UserModel.FindOne | models/userModel.js:78-82 | `findOne` returns the first record in natural order that is not soft-deleted (`active != false`, a missing `active` included) and matches; `None` iff no such record |
| UserModel.Selected | models/userModel.js:29-53 | a loaded record lacks `active`, and `password` unless `+password` was selected; every other path is as stored |
| UserModel.SaveDoc | models/userModel.js:56-76 | `save()` validates first (failing with the reported paths and no change), then runs both hooks; the unique email index refuses an insert or an update when another record holds the email (`DuplicateKey` iff so); otherwise a new document is appended and an existing one overwrites its record, keeping unselected fields; a document that validates (or is saved without validation) and is not a duplicate is saved |
| UserModel.SaveKeepsEmailsDistinct | models/userModel.js:14 | a save keeps the users' emails pairwise distinct |
| UserModel.UserDoc.Load | models/userModel.js:29-53 | a loaded document holds the record without `active`, and without `password` unless selected |
| UserModel.UserDoc.Create | models/userModel.js:6-54 | a new document holds the given record, is new, and has its password marked modified when one is given |
| UserModel.UserDoc.SetPassword | controllers/authController.js:266-267 | assigning password and confirmation marks the password modified and changes nothing else |
| UserModel.UserDoc.HashPasswordHook | models/userModel.js:56-66 | the document afterwards is `HashedForSave` of the document before |
| UserModel.UserDoc.StampPasswordChangedHook | models/userModel.js:68-76 | the document afterwards is `StampedForSave` of the document before |
| UserModel.UserDoc.CreatePasswordResetToken | models/userModel.js:107-120 | returns the hex form of the 32 random bytes and stores only its sha256 digest, with expiry exactly `now + 600000` |
| UserModel.UserDoc.Save | models/userModel.js:56-76 | the failure, the document and the collection afterwards are those of `SaveDoc` on the state before; a failed save leaves `isNew` and the modified flag as they were |
| AuthController.CookieSecureAsWritten | controllers/authController.js:35 | the cookie flag as written is computed only when `req.secure`; any other request throws |
| AuthController.CookieSecure | controllers/authController.js:35 | the intended flag is `req.secure` or `X-Forwarded-Proto: https`, and agrees with the written one wherever that one does not throw |
| AuthController.SendTokenAsWritten | controllers/authController.js:16-48 | `createNSendToken` as written answers iff the request is secure, and then answers what `SendToken` does |
| AuthController.SendToken | controllers/authController.js:16-48 | the answer carries a token signed for the user's id now, the same token in an HTTP-only `jwt` cookie marked secure iff the request came over TLS or the proxy reports https, the given status, and the user with the password removed and nothing else changed |
| AuthController.ExtractToken | controllers/authController.js:112-126 | a header starting with `Bearer` supplies its second space-separated piece and the cookie is then ignored; otherwise a non-empty `jwt` cookie is the token; an empty token counts as none |
| AuthController.Authenticate | controllers/authController.js:128-149 | the rejections come in order (verification failure as thrown, then "no longer exist", then "recently changed password"), all 401; success means the token verified, the named user is visible, is returned without password, and the token is not stale; conversely a verified token for a visible user that is not stale is accepted |
| AuthController.ProtectDecision | controllers/authController.js:110-155 | no token gives the 401 "not logged in"; otherwise the outcome is `Authenticate` of the extracted token; every failure is 401 |
| AuthController.Protect | controllers/authController.js:110-155 | on success both `req.user` and `res.locals.user` are the loaded user; on failure the error is passed on and the request context is untouched |
| AuthController.SoftAuthenticate | controllers/authController.js:158-193 | a user is exposed iff the `jwt` cookie is non-empty and every check of `protect` passes on it, and it is that user |
| AuthController.IsLoggedIn | controllers/authController.js:158-193 | never yields an error; sets `res.locals.user` only on full success, otherwise keeps it; never touches `req.user` |
| AuthController.RestrictTo | controllers/authController.js:195-206 | admits iff the user's role is among the given roles, else the 403 error |
| AuthController.Login | controllers/authController.js:75-99 | a missing field gives 400; an unknown email and a wrong password give the same 401; the right password for the visible user with that email logs in; success means the visible user with that email holds a hash matching the password, and the answer is `SendToken` for that user |
| AuthController.NewUser | controllers/authController.js:51 | `User.create(req.body)` takes the id, name, email, password, confirmation and a given role (else `user`) from the body; photo, `active` and the timestamps get their defaults |
| AuthController.SignupSpec | controllers/authController.js:50-73 | invalid input (a password shorter than 8 in particular) fails with the validation paths and stores nothing; a taken email stores nothing; otherwise exactly one record is appended, the new user hashed for save (every path as built from the body, a hash `compare` accepts and no confirmation), and the request succeeds iff the welcome email went out, the record staying stored either way; the store stays valid |
| AuthController.Signup | controllers/authController.js:50-73 | outcome and collection afterwards are `SignupSpec` of the state before |
| AuthController.ForgotPasswordSpec | controllers/authController.js:208-246 | an unknown email gives 404 and no change; otherwise the user's record gets the digest of the mailed token and an expiry ten minutes ahead, and if the mail fails both fields are cleared and the answer is 500; the store stays valid |
| AuthController.ForgotPassword | controllers/authController.js:208-246 | outcome and collection afterwards are `ForgotPasswordSpec` of the state before |
| AuthController.ResetPasswordSpec | controllers/authController.js:248-282 | no record with the token's digest and a future expiry gives 400; once the record is found, the reset succeeds iff its name, email and role are valid and the new password has at least 8 code units and equals its confirmation, so a short or unconfirmed password fails validation; success means the record held the digest with expiry after now, and now holds the new hash, the change stamp and no reset fields, with nothing else changed; failures change nothing |
| AuthController.ResetPassword | controllers/authController.js:248-282 | outcome and collection afterwards are `ResetPasswordSpec` of the state before |
| AuthController.UpdatePasswordAsWritten | controllers/authController.js:285-307 | the flow as written never answers "Your current password is wrong" |
| AuthController.UpdatePasswordSpec | controllers/authController.js:285-307 | a wrong current password gives 401; with the right one the change succeeds iff the record's name, email and role are valid and the new password has at least 8 code units and equals its confirmation; success means the current password matched, and only the user's password hash, confirmation and change stamp changed; failures change nothing; the store stays valid |
| AuthController.UpdatePassword | controllers/authController.js:285-307 | outcome and collection afterwards are `UpdatePasswordSpec` of the state before |
| AuthProperties.FindById | controllers/authController.js:134 | `findById(i)` finds record `i` iff it exists and is not soft-deleted |
| AuthProperties.FindByEmail | controllers/authController.js:84 | `findOne({ email })` finds the single visible record holding that email |
| AuthProperties.BearerHeaderRoundTrip | controllers/authController.js:113-117 | `Bearer <token>` yields exactly the token, whatever the cookie |
| AuthProperties.InactiveUserRejected | controllers/authController.js:134-142 | a valid token for a missing or soft-deleted user gets "no longer exist" (401) |
| AuthProperties.IsLoggedInAgreesWithProtect | controllers/authController.js:158-193 | without an `Authorization` header, `isLoggedIn` exposes a user iff `protect` attaches that user |
| AuthProperties.FreshTokenAccepted | controllers/authController.js:131-154 | a token signed for a visible user after their last password change is accepted until it expires |
| AuthProperties.LoginTokenPassesProtect | controllers/authController.js:92 | the token `login` returns passes `protect`, from the header and from the cookie, until it expires |
| AuthProperties.ChangeRevokesOlderTokens | models/userModel.js:68-76 | after a change at `c`, a token is refused as stale iff `iat + 2 <= c / 1000`, and otherwise accepted |
| AuthProperties.UpdatePasswordRevokesTokens | controllers/authController.js:285-307 | after `updatePassword`, a token two or more seconds older than the change is refused and the new token is accepted |
| AuthProperties.BookingPolicy | routes/bookingRoutes.js:16 | behind `restrictTo('admin', 'lead-guide')` a schema-valid user is admitted iff the role is neither `user` nor `guide` |
| AuthProperties.LoginAcceptsRightPassword | controllers/authController.js:79-92 | a visible user presenting the password whose hash is stored gets a session for their own record |
| AuthProperties.ForgotThenReset | controllers/authController.js:208-270 | the mailed token finds the account until ten minutes have passed, and then resets the password to any acceptable new one when the record's other paths are valid; it is refused with 400 from then on |
| AuthProperties.ResetIsSingleUse | controllers/authController.js:266-270 | after a successful reset the same token is refused with 400 and changes nothing |
| AuthProperties.UpdatePasswordIgnoresCurrentPassword | controllers/authController.js:290 | with a wrong current password, the flow as written replaces the password, where the awaited check answers 401 and changes nothing |
| AuthProperties.PlainRequestCrashesSendToken | controllers/authController.js:35 | on a request that is not secure the written `createNSendToken` throws (500), while the intended flag marks the cookie secure iff the proxy reports https |
| TourModel.NewTour | models/tourModel.js:12-93 | `name`, `summary` and `description` are trimmed; `ratingsAverage` and `rating` default to 4.5, `ratingsQuantity` to 0, `secretTour` to false, and each takes the given value when there is one; duration, group size, difficulty, price, discount and cover are carried over as given; no slug yet |
| TourModel.NewTourConforms | models/tourModel.js:12-93 | a created tour passes validation iff the client sent a name of 10 to 40 code units once trimmed, a duration, a group size, a known difficulty, a price above any discount, a non-blank summary, a cover image, and an in-range rating if any |
| TourModel.TourValidationErrors | models/tourModel.js:12-82 | no errors iff the tour conforms: name present and 10 to 40 long once trimmed, difficulty one of three, rating in [1.0, 5.0], a given discount below the price, and `duration`, `maxGroupSize`, `price`, `summary`, `imageCover` present |
| TourModel.TourErrorPaths | models/tourModel.js:12-69 | `name`, `difficulty`, `ratingsAverage`, `price` and `priceDiscount` are each reported iff their own rule fails |
| TourModel.SaveTour | models/tourModel.js:152-155 | a non-conforming tour fails with its paths and no change; otherwise the saved record's slug is `slugify(name)`, the unique name index refuses an insert or an update when another tour has the name (`DuplicateKey` iff so); otherwise a new tour is appended and an existing one overwritten; a conforming tour that is not a duplicate is saved |
| TourModel.SaveKeepsNamesDistinct | models/tourModel.js:15 | a save keeps the tours' names pairwise distinct |
| TourModel.SaveTourIdempotent | models/tourModel.js:152-155 | saving a saved tour again changes nothing |
| TourModel.SlugIgnoresPreviousSlug | models/tourModel.js:152-155 | the saved record does not depend on the slug the document carried before |
| TourModel.TourDoc.Create | models/tourModel.js:10-93 | a new document holds `NewTour` of the input |
| TourModel.TourDoc.SlugHook | models/tourModel.js:152-155 | the slug becomes `slugify(name)` and nothing else changes |
| TourModel.TourDoc.Save | models/tourModel.js:152-155 | failure, document and collection afterwards are those of `SaveTour` on the state before; a failed save leaves `isNew` as it was |
| TourModel.Run | models/tourModel.js:176-178 | a query returns exactly the records meeting all its conditions |
| TourModel.Public | models/tourModel.js:178 | keeps exactly the tours whose `secretTour` is not true (a missing flag included) |
| TourModel.TourQuery.HideSecretTours | models/tourModel.js:176-182 | the hook adds the condition `secretTour != true` to the query |
| TourModel.HiddenSecretTours | models/tourModel.js:176-182 | a query with the hook's condition returns what it returned without it, minus the secret tours, in the same order |

## Left out

- Cryptography: bcrypt, sha256, `jsonwebtoken` and `validator.isEmail` are uninterpreted. Only the facts in `Crypto.Sound` are assumed, and only where a lemma asks for them. Neither bcrypt's cost factor nor token forgery is modelled.
- Time, randomness and email: `Date.now()`, `crypto.randomBytes`, the bcrypt salt and the outcome of `sendWelcome` / `sendPasswordReset` are parameters. The email contents and URLs are not modelled.
- HTTP shaping: cookie expiry, `res.status().json`, `logout`, the rendered pages and `catchAsync` are not modelled. A rejected `jwt.verify` is the 401 path; any other exception is `Crashed` (500).
- Mongoose: queries other than find-by-id, by email and by reset token are not modelled, and neither are `populate`, indexes other than the unique `email` and `name` (checked on insert and on update), or concurrency between requests. The collection is a sequence whose ids are positions.
- Numbers: tour numbers are whole numbers, and `ratingsAverage` and `rating` are in tenths (both default to 45, that is 4.5). The `Math.round(val * 10) / 10` setter and the `durationWeeks` virtual are floating point and not modelled. The same goes for `createAt`, the geo paths, `images`, `startDates` and `guides`.
- TourModel.DiscountOk: the discount validator is modelled on creation and save only. Validators run by an update query, where `this` is the query, are not modelled.
- AuthController.NewUser: only `name`, `email`, `password`, `passwordConfirm` and `role` of the signup body are modelled. `User.create(req.body)` takes any other schema path the body holds as well.
- AuthController.Login, AuthController.SignupSpec, AuthController.ResetPasswordSpec, AuthController.UpdatePasswordSpec: these answer with the corrected `SendToken`. As written, line 35 of controllers/authController.js throws on every request that is not secure, and for signup, reset and password change that happens after the record has been saved. `SendTokenAsWritten` and `PlainRequestCrashesSendToken` state that behaviour; the flows do not repeat it.
- AuthProperties.ResetIsSingleUse: it assumes that the token's digest was held by one record only. A sha256 collision between two accounts' tokens is outside the model.
- UserModel.ValidationErrors: the per-path statements cover `password`, `passwordConfirm` and `role`. For `name` and `email` only the all-paths statement holds.
- TourModel.TourErrorPaths: `duration`, `maxGroupSize`, `summary` and `imageCover` are covered only by the all-paths statement of `TourValidationErrors`.
- The application setup (`app.js`, `server.js`), the route wiring, and the client scripts under `public/js` are not part of this model.

## Findings

| source | as written | input that shows it | evidently intended | confidence | as-written member | corrected member |
|---|---|---|---|---|---|---|
| controllers/authController.js:290 | `correctPassword` is async and is not awaited, so the test is on a Promise, which is always truthy, and the 401 branch can never run; when `passwordCurrent` is absent the unawaited comparison presumably rejects with nothing to handle it, and the `unhandledRejection` handler at server.js:56-62 would then shut the server down (the server is not part of this model) | a logged-in user posting a wrong `passwordCurrent` and a valid new password: the password is replaced | await the comparison and refuse a wrong current password with 401 | high (not executed) | AuthController.UpdatePasswordAsWritten, AuthProperties.UpdatePasswordIgnoresCurrentPassword | AuthController.UpdatePasswordSpec |
| controllers/authController.js:35 | `req.headers('x-forwarded-proto')` calls an object as a function, which throws whenever `req.secure` is false | any login, signup, reset or password change over plain HTTP: a 500 after the reset or change has already been saved | read the header (`req.headers['x-forwarded-proto']`) | high (not executed) | AuthController.SendTokenAsWritten, AuthProperties.PlainRequestCrashesSendToken | AuthController.SendToken |
