/** The user document of `models/userModel.js`: the schema's fields, defaults
    and validators, the two `pre('save')` hooks, the `pre(/^find/)` filter that
    hides soft-deleted users, and the instance methods `correctPassword`,
    `changesPasswordAfter` and `createPasswordResetToken`. The collection is a
    sequence of records in insertion order whose ids are their positions. */
module UserModel {
  import opened Base
  import opened Text
  import opened Crypto

  const Roles: seq<string> := ["user", "guide", "lead-guide", "admin"]
  const DefaultRole: string := "user"
  const DefaultPhoto: string := "default.jpg"
  const MinPasswordLength: nat := 8
  /** A reset token is valid for ten minutes. */
  const ResetTokenLifetimeMs: nat := 10 * 60 * 1000
  /** `crypto.randomBytes(32)` feeds the reset token. */
  const ResetTokenBytes: nat := 32
  /** `passwordChangedAt` is back-dated by one second so that the token issued
      right after a password change is not stale. */
  const PasswordChangedSlackMs: nat := 1000

  /** A user record. `password` and `active` are `select: false`: a document
      loaded without asking for them has `None` there. `password` holds the
      bcrypt hash once saved; `passwordResetToken` holds the sha256 digest of
      the reset token; times are milliseconds since the epoch. */
  datatype User = User(
    id: nat,
    name: string,
    email: string,
    photo: string,
    role: string,
    password: Option<string>,
    passwordConfirm: Option<string>,
    passwordChangedAt: Option<int>,
    passwordResetToken: Option<string>,
    passwordResetExpires: Option<int>,
    active: Option<bool>)

  // Validators of the schema. A `required` string path rejects `undefined` and "".

  predicate NameValid(u: User) { u.name != "" }

  predicate EmailValid(u: User, libs: Libs) { u.email != "" && libs.isEmail(u.email) }

  predicate RoleValid(u: User) { u.role in Roles }

  predicate PasswordValid(u: User)
  {
    u.password.Some? && JsLength(u.password.value) >= MinPasswordLength
  }

  /** `passwordConfirm` is required and must be `=== this.password`. */
  predicate PasswordConfirmValid(u: User)
  {
    u.passwordConfirm.Some? && u.passwordConfirm.value != "" && u.passwordConfirm == u.password
  }

  predicate SchemaValid(u: User, libs: Libs)
  {
    NameValid(u) && EmailValid(u, libs) && RoleValid(u) && PasswordValid(u) && PasswordConfirmValid(u)
  }

  /** The paths a password change leaves alone pass their validators. */
  predicate ProfileValid(u: User, libs: Libs)
  {
    NameValid(u) && EmailValid(u, libs) && RoleValid(u)
  }

  /** A new password and confirmation the schema accepts: at least eight code
      units, and the confirmation equal to it. */
  predicate AcceptableNewPassword(password: string, passwordConfirm: string)
  {
    JsLength(password) >= MinPasswordLength && passwordConfirm == password
  }

  /** Setting a password on a record passes validation exactly when the rest
      of the record does and the new password is acceptable. */
  lemma {:induction false} PasswordChangeValid(u: User, libs: Libs, password: string, passwordConfirm: string)
    ensures SchemaValid(u.(password := Some(password), passwordConfirm := Some(passwordConfirm)), libs) <==>
              ProfileValid(u, libs) && AcceptableNewPassword(password, passwordConfirm)
  {
    if JsLength(password) >= MinPasswordLength {
      assert password != "";
    }
  }

  /** The paths a `ValidationError` names, in schema order. */
  function ValidationErrors(u: User, libs: Libs): (paths: seq<string>)
    ensures paths == [] <==> SchemaValid(u, libs)
    ensures "password" in paths <==> !PasswordValid(u)
    ensures "passwordConfirm" in paths <==> !PasswordConfirmValid(u)
    ensures "role" in paths <==> !RoleValid(u)
  {
    (if NameValid(u) then [] else ["name"])
    + (if EmailValid(u, libs) then [] else ["email"])
    + (if RoleValid(u) then [] else ["role"])
    + (if PasswordValid(u) then [] else ["password"])
    + (if PasswordConfirmValid(u) then [] else ["passwordConfirm"])
  }

  /** The first `pre('save')` hook: when the password path was modified, store
      its bcrypt hash under a fresh salt and drop the confirmation; otherwise
      leave the document alone. */
  function HashedForSave(u: User, passwordModified: bool, libs: Libs, salt: nat): (r: User)
    ensures !passwordModified ==> r == u
    ensures passwordModified && u.password.Some? ==>
              && r.password.Some? && r.passwordConfirm.None?
              && (Sound(libs) ==> libs.bcryptCompare(u.password.value, r.password.value))
    ensures r.(password := u.password, passwordConfirm := u.passwordConfirm) == u
  {
    if passwordModified && u.password.Some? then
      u.(password := Some(libs.bcryptHash(u.password.value, salt)), passwordConfirm := None)
    else u
  }

  /** The second `pre('save')` hook: a modified password on a document that is
      not new stamps `passwordChangedAt` one second before `nowMs`. */
  function StampedForSave(u: User, passwordModified: bool, isNew: bool, nowMs: int): (r: User)
    ensures passwordModified && !isNew ==> r.passwordChangedAt == Some(nowMs - PasswordChangedSlackMs)
    ensures !passwordModified || isNew ==> r == u
    ensures r.(passwordChangedAt := u.passwordChangedAt) == u
  {
    if !passwordModified || isNew then u
    else u.(passwordChangedAt := Some(nowMs - PasswordChangedSlackMs))
  }

  /** `changesPasswordAfter(JWTTimestamp)`: a token issued at second `t` is
      stale exactly when the whole second `t` lies before the recorded change. */
  function ChangesPasswordAfter(u: User, jwtTimestamp: int): (changed: bool)
    ensures u.passwordChangedAt.None? ==> !changed
    ensures u.passwordChangedAt.Some? && u.passwordChangedAt.value >= 0 ==>
              (changed <==> (jwtTimestamp + 1) * 1000 <= u.passwordChangedAt.value)
  {
    match u.passwordChangedAt
    case None => false
    case Some(at) => jwtTimestamp < SecondsOf(at)
  }

  /** `correctPassword(candidate, hash)` is `bcrypt.compare`: it accepts a
      password against any hash made of it. */
  predicate CorrectPassword(libs: Libs, candidate: string, hash: string): (ok: bool)
    ensures Sound(libs) && (exists salt :: hash == libs.bcryptHash(candidate, salt)) ==> ok
  {
    libs.bcryptCompare(candidate, hash)
  }

  // Queries. Every find-family query gets `{ active: { $ne: false } }` added
  // by the `pre(/^find/)` hook; a record without `active` still matches.

  predicate Visible(u: User)
  {
    u.active != Some(false)
  }

  /** The filters the auth controller queries with. */
  datatype Filter =
    | ById(id: int)                              // findById(id)
    | ByEmail(email: string)                     // findOne({ email })
    | ByResetToken(digest: string, nowMs: int)   // findOne({ passwordResetToken, passwordResetExpires: { $gt: now } })

  predicate Matches(u: User, f: Filter)
  {
    match f
    case ById(id) => u.id == id
    case ByEmail(e) => u.email == e
    case ByResetToken(d, now) =>
      u.passwordResetToken == Some(d) && u.passwordResetExpires.Some? && u.passwordResetExpires.value > now
  }

  /** `findOne(f)` after the find hook: the position of the first visible
      record in natural order that matches. */
  function FindOne(users: seq<User>, f: Filter): (r: Option<nat>)
    ensures r.Some? ==> r.value < |users| && Visible(users[r.value]) && Matches(users[r.value], f)
    ensures r.Some? ==> forall j :: 0 <= j < r.value ==> !(Visible(users[j]) && Matches(users[j], f))
    ensures r.None? ==> forall j :: 0 <= j < |users| ==> !(Visible(users[j]) && Matches(users[j], f))
  {
    FindFrom(users, f, 0)
  }

  function FindFrom(users: seq<User>, f: Filter, k: nat): (r: Option<nat>)
    requires k <= |users|
    ensures r.Some? ==> k <= r.value < |users| && Visible(users[r.value]) && Matches(users[r.value], f)
    ensures r.Some? ==> forall j :: k <= j < r.value ==> !(Visible(users[j]) && Matches(users[j], f))
    ensures r.None? ==> forall j :: k <= j < |users| ==> !(Visible(users[j]) && Matches(users[j], f))
    decreases |users| - k
  {
    if k == |users| then None
    else if Visible(users[k]) && Matches(users[k], f) then Some(k)
    else FindFrom(users, f, k + 1)
  }

  /** The collection as the auth flows keep it: ids are positions, every record
      holds a password hash, and the unique index keeps emails distinct. */
  ghost predicate StoreValid(users: seq<User>)
  {
    && (forall i :: 0 <= i < |users| ==> users[i].id == i && users[i].password.Some?)
    && DistinctEmails(users)
  }

  /** What the unique index on `email` keeps true of the collection. */
  predicate DistinctEmails(users: seq<User>)
  {
    forall i, j :: 0 <= i < j < |users| ==> users[i].email != users[j].email
  }

  /** A record other than `id` holds `email`. The unique index on `email`
      refuses an insert or an update that would store it twice. */
  predicate EmailTaken(users: seq<User>, email: string, id: nat)
  {
    exists j :: 0 <= j < |users| && j != id && users[j].email == email
  }

  /** A loaded record: `password` only when the query selected `+password`,
      `active` never. */
  function Selected(u: User, selectPassword: bool): (r: User)
    ensures r.password == (if selectPassword then u.password else None)
    ensures r.active.None?
    ensures r.(password := u.password, active := u.active) == u
  {
    u.(password := if selectPassword then u.password else None, active := None)
  }

  /** What an update of a loaded document writes: every path as the document
      has it, except the unselected `password` and `active`, which stay. */
  function Merged(stored: User, doc: User): (r: User)
    ensures r.password == (if doc.password.Some? then doc.password else stored.password)
    ensures r.active == (if doc.active.Some? then doc.active else stored.active)
    ensures r.(password := doc.password, active := doc.active) == doc
  {
    doc.(password := if doc.password.Some? then doc.password else stored.password,
         active := if doc.active.Some? then doc.active else stored.active)
  }

  /** Outcome of `doc.save()`: the failure if any, the document afterwards and
      the collection afterwards. */
  datatype SaveOutcome = SaveOutcome(failure: Option<Failure>, doc: User, users: seq<User>)

  /** `doc.save({ validateBeforeSave })`: validation, then the two hooks, then
      an insert (new document) or an update, either refused by the unique
      email index when another record holds the email. */
  function SaveDoc(users: seq<User>, doc: User, isNew: bool, passwordModified: bool,
                   libs: Libs, salt: nat, nowMs: int, validate: bool): (o: SaveOutcome)
    requires isNew ==> doc.id == |users|
    requires !isNew ==> doc.id < |users|
    ensures validate && !SchemaValid(doc, libs) ==> o == SaveOutcome(Some(ValidationFailed(ValidationErrors(doc, libs))), doc, users)
    ensures o.failure.None? ==> o.doc == StampedForSave(HashedForSave(doc, passwordModified, libs, salt), passwordModified, isNew, nowMs)
    ensures o.failure.None? && isNew ==> o.users == users + [o.doc]
    ensures o.failure.None? && !isNew ==> o.users == users[doc.id := Merged(users[doc.id], o.doc)]
    ensures o.failure.Some? ==> o.users == users
    ensures o.failure == Some(DuplicateKey("email")) <==>
              (!validate || SchemaValid(doc, libs)) && EmailTaken(users, doc.email, doc.id)
    ensures (!validate || SchemaValid(doc, libs)) && !EmailTaken(users, doc.email, doc.id) ==> o.failure.None?
  {
    if validate && ValidationErrors(doc, libs) != [] then
      SaveOutcome(Some(ValidationFailed(ValidationErrors(doc, libs))), doc, users)
    else
      var saved := StampedForSave(HashedForSave(doc, passwordModified, libs, salt), passwordModified, isNew, nowMs);
      if EmailTaken(users, doc.email, doc.id) then SaveOutcome(Some(DuplicateKey("email")), saved, users)
      else if isNew then SaveOutcome(None, saved, users + [saved])
      else SaveOutcome(None, saved, users[doc.id := Merged(users[doc.id], saved)])
  }

  /** The unique index at work: a save that goes through leaves the emails
      of the collection distinct. */
  lemma SaveKeepsEmailsDistinct(users: seq<User>, doc: User, isNew: bool, passwordModified: bool,
                                libs: Libs, salt: nat, nowMs: int, validate: bool)
    requires isNew ==> doc.id == |users|
    requires !isNew ==> doc.id < |users|
    requires DistinctEmails(users)
    ensures DistinctEmails(SaveDoc(users, doc, isNew, passwordModified, libs, salt, nowMs, validate).users)
  {
  }

  /** The `users` collection. */
  class UserCollection {
    var users: seq<User>

    constructor (initial: seq<User>)
      ensures users == initial
    {
      users := initial;
    }
  }

  /** A Mongoose user document in memory: the record's paths, plus whether it
      is new and whether its password path was modified since load. */
  class UserDoc {
    var id: nat
    var name: string
    var email: string
    var photo: string
    var role: string
    var password: Option<string>
    var passwordConfirm: Option<string>
    var passwordChangedAt: Option<int>
    var passwordResetToken: Option<string>
    var passwordResetExpires: Option<int>
    var active: Option<bool>
    var isNew: bool
    var passwordModified: bool

    function Snapshot(): User
      reads this
    {
      User(id, name, email, photo, role, password, passwordConfirm, passwordChangedAt,
           passwordResetToken, passwordResetExpires, active)
    }

    /** The result of a find query. */
    constructor Load(u: User, selectPassword: bool)
      ensures Snapshot() == Selected(u, selectPassword)
      ensures !isNew && !passwordModified
    {
      id, name, email, photo, role := u.id, u.name, u.email, u.photo, u.role;
      password := if selectPassword then u.password else None;
      passwordConfirm, passwordChangedAt := u.passwordConfirm, u.passwordChangedAt;
      passwordResetToken, passwordResetExpires := u.passwordResetToken, u.passwordResetExpires;
      active := None;
      isNew, passwordModified := false, false;
    }

    /** `new User(fields)` ahead of `create`: every given path counts as modified. */
    constructor Create(u: User)
      ensures Snapshot() == u
      ensures isNew && passwordModified == u.password.Some?
    {
      id, name, email, photo, role := u.id, u.name, u.email, u.photo, u.role;
      password, passwordConfirm, passwordChangedAt := u.password, u.passwordConfirm, u.passwordChangedAt;
      passwordResetToken, passwordResetExpires := u.passwordResetToken, u.passwordResetExpires;
      active := u.active;
      isNew, passwordModified := true, u.password.Some?;
    }

    /** `doc.password = p; doc.passwordConfirm = confirm`. */
    method SetPassword(p: string, confirm: string)
      modifies this
      ensures Snapshot() == old(Snapshot()).(password := Some(p), passwordConfirm := Some(confirm))
      ensures passwordModified && isNew == old(isNew)
    {
      password, passwordConfirm := Some(p), Some(confirm);
      passwordModified := true;
    }

    /** The first `pre('save')` hook. */
    method HashPasswordHook(libs: Libs, salt: nat)
      modifies this
      ensures Snapshot() == HashedForSave(old(Snapshot()), passwordModified, libs, salt)
      ensures isNew == old(isNew) && passwordModified == old(passwordModified)
    {
      if !passwordModified {
        return;
      }
      if password.Some? {
        password := Some(libs.bcryptHash(password.value, salt));
        passwordConfirm := None;
      }
    }

    /** The second `pre('save')` hook. */
    method StampPasswordChangedHook(nowMs: int)
      modifies this
      ensures Snapshot() == StampedForSave(old(Snapshot()), passwordModified, isNew, nowMs)
      ensures isNew == old(isNew) && passwordModified == old(passwordModified)
    {
      if !passwordModified || isNew {
        return;
      }
      passwordChangedAt := Some(nowMs - PasswordChangedSlackMs);
    }

    /** `createPasswordResetToken()`: returns the plain token (the hex form of
        the random bytes) and keeps only its sha256 digest, valid for ten minutes. */
    method CreatePasswordResetToken(libs: Libs, randomBytes: seq<byte>, nowMs: int) returns (resetToken: string)
      requires |randomBytes| == ResetTokenBytes
      modifies this
      ensures resetToken == HexEncode(randomBytes) && |resetToken| == 64
      ensures Snapshot() == old(Snapshot()).(passwordResetToken := Some(libs.sha256Hex(resetToken)),
                                             passwordResetExpires := Some(nowMs + ResetTokenLifetimeMs))
      ensures isNew == old(isNew) && passwordModified == old(passwordModified)
    {
      resetToken := HexEncode(randomBytes);
      passwordResetToken := Some(libs.sha256Hex(resetToken));
      passwordResetExpires := Some(nowMs + ResetTokenLifetimeMs);
    }

    /** `doc.save({ validateBeforeSave })` into `db`. */
    method Save(db: UserCollection, libs: Libs, salt: nat, nowMs: int, validateBeforeSave: bool)
      returns (failure: Option<Failure>)
      requires isNew ==> id == |db.users|
      requires !isNew ==> id < |db.users|
      modifies this, db
      ensures var o := SaveDoc(old(db.users), old(Snapshot()), old(isNew), old(passwordModified),
                               libs, salt, nowMs, validateBeforeSave);
              failure == o.failure && Snapshot() == o.doc && db.users == o.users
      ensures failure.None? ==> !isNew && !passwordModified
      ensures failure.Some? ==> isNew == old(isNew) && passwordModified == old(passwordModified)
    {
      if validateBeforeSave {
        var errors := ValidationErrors(Snapshot(), libs);
        if errors != [] {
          return Some(ValidationFailed(errors));
        }
      }
      HashPasswordHook(libs, salt);
      StampPasswordChangedHook(nowMs);
      if EmailTaken(db.users, email, id) {
        return Some(DuplicateKey("email"));
      }
      if isNew {
        db.users := db.users + [Snapshot()];
      } else {
        db.users := db.users[id := Merged(db.users[id], Snapshot())];
      }
      isNew, passwordModified := false, false;
      failure := None;
    }
  }
}
