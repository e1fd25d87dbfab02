/**
 The credential logic of the `/user/signup` and `/user/login` routes.

 Users live in a collection kept in natural order; `findOne` returns the first
 document that matches. The password digest (SHA-256, base64-encoded) is a
 parameter `hash`; the new document's `_id` and the two `uid2(16)` values (salt
 and token) arrive in `Fresh`; the avatar upload and the final save are awaited
 calls whose outcome is a parameter.
 */
module Users {
  import opened Common

  /** The password digest, kept uninterpreted. */
  type Hasher = string -> string

  /** The profile stored under `account`. */
  datatype Account = Account(username: Option<string>, phone: Option<string>)

  /** A stored user document. */
  datatype User = User(id: nat, email: string, account: Account, token: string,
                       hash: string, salt: string, avatar: Option<ImageRef>)

  /** The body of a successful signup or login: `{ _id, token, account: { username, phone } }`.
      It has no place for the email, the hash, the salt or the password. */
  datatype Session = Session(id: nat, token: string, account: Account)

  /** The signup form fields (`req.fields`). */
  datatype SignupForm = SignupForm(username: Option<string>, password: Option<string>,
                                   email: Option<string>, phone: Option<string>)

  /** Values drawn from outside the handler: the new `_id`, and `uid2(16)` twice. */
  datatype Fresh = Fresh(id: nat, salt: string, token: string)

  const RequiredField := "Required field."
  const EmailInUse := "This email is already in use."

  function SessionOf(u: User): Session
  {
    Session(u.id, u.token, u.account)
  }

  predicate EmailTaken(users: seq<User>, email: string)
  {
    exists i :: 0 <= i < |users| && users[i].email == email
  }

  /** The invariant signup keeps: no two users share an email. */
  predicate UniqueEmails(users: seq<User>)
  {
    forall i, j :: 0 <= i < j < |users| ==> users[i].email != users[j].email
  }

  /** `User.findOne({ email })`: exact, case-sensitive match. */
  function FindByEmail(users: seq<User>, email: string): (r: Option<nat>)
    ensures r.Some? ==> r.value < |users| && users[r.value].email == email
    ensures r.Some? ==> forall j :: 0 <= j < r.value ==> users[j].email != email
    ensures r.None? <==> !EmailTaken(users, email)
  {
    FindFirst(users, (u: User) => u.email == email)
  }

  /** `username`, `password` and `email` are all truthy. */
  predicate HasRequired(form: SignupForm)
  {
    Truthy(form.username) && Truthy(form.password) && Truthy(form.email)
  }

  /** `hash(password + salt) === user.hash`, with an undefined password rendered as text. */
  predicate PasswordMatches(u: User, hash: Hasher, password: Option<string>)
  {
    hash(Render(password) + u.salt) == u.hash
  }

  /** The document signup builds and then saves. */
  function NewUser(form: SignupForm, hash: Hasher, issued: Fresh, avatar: ImageRef): (u: User)
    requires HasRequired(form)
    ensures PasswordMatches(u, hash, form.password)
    ensures u.email == form.email.value && u.token == issued.token && u.salt == issued.salt
    ensures u.account.username == form.username && u.account.phone == form.phone
    ensures u.id == issued.id && u.avatar == Some(avatar)
  {
    User(issued.id, form.email.value, Account(form.username, form.phone), issued.token,
         hash(form.password.value + issued.salt), issued.salt, Some(avatar))
  }

  /** `POST /user/signup`: validation, the duplicate-email check, the avatar
      upload, the save, and the projected reply. */
  function Signup(users: seq<User>, form: SignupForm, hash: Hasher, issued: Fresh,
                  avatar: Attempt<ImageRef>, save: Attempt<()>): (out: Outcome<Session, seq<User>>)
    ensures !HasRequired(form) ==> out == Outcome(Error(400, RequiredField), users)
    ensures HasRequired(form) && EmailTaken(users, form.email.value) ==>
              out == Outcome(Error(400, EmailInUse), users)
    ensures out.reply.Ok? <==>
              HasRequired(form) && !EmailTaken(users, form.email.value) && avatar.Done? && save.Done?
    ensures HasRequired(form) && !EmailTaken(users, form.email.value) && avatar.Thrown? ==>
              out == Outcome(Error(400, avatar.message), users)
    ensures HasRequired(form) && !EmailTaken(users, form.email.value) && avatar.Done? && save.Thrown? ==>
              out == Outcome(Error(400, save.message), users)
    ensures out.reply.Error? ==> out.store == users && out.reply.status == 400
    ensures out.reply.Ok? ==>
              && |out.store| == |users| + 1
              && out.store[..|users|] == users
              && out.store[|users|] == NewUser(form, hash, issued, avatar.value)
              && out.reply.body == SessionOf(out.store[|users|])
  {
    if !HasRequired(form) then Outcome(Error(400, RequiredField), users)
    else if FindByEmail(users, form.email.value).Some? then Outcome(Error(400, EmailInUse), users)
    else
      match avatar
      case Thrown(m) => Outcome(Error(400, m), users)
      case Done(ref) =>
        match save
        case Thrown(m) => Outcome(Error(400, m), users)
        case Done(_) =>
          var u := NewUser(form, hash, issued, ref);
          Outcome(Ok(SessionOf(u)), users + [u])
  }

  /** `i` is the user `findOne({ email })` returns: the first one with that email. */
  predicate FirstWithEmail(users: seq<User>, email: string, i: int)
  {
    0 <= i < |users| && users[i].email == email && forall j :: 0 <= j < i ==> users[j].email != email
  }

  /** `POST /user/login`: the first user with that exact email, and a digest comparison. */
  function Login(users: seq<User>, hash: Hasher, email: string, password: Option<string>): (r: Reply<Session>)
    ensures r.Error? ==> r == Error(401, Unauthorized)
    ensures r.Ok? ==> exists i :: FirstWithEmail(users, email, i)
                                  && PasswordMatches(users[i], hash, password)
                                  && r.body == SessionOf(users[i])
    ensures forall i :: FirstWithEmail(users, email, i) && PasswordMatches(users[i], hash, password) ==>
              r == Ok(SessionOf(users[i]))
    ensures !EmailTaken(users, email) ==> r.Error?
  {
    match FindByEmail(users, email)
    case None => Error(401, Unauthorized)
    case Some(i) =>
      if PasswordMatches(users[i], hash, password) then Ok(SessionOf(users[i]))
      else Error(401, Unauthorized)
  }

  /** Under unique emails, login succeeds exactly when the user with that email
      exists and the password's digest equals the stored one. */
  lemma LoginSucceedsIff(users: seq<User>, hash: Hasher, email: string, password: Option<string>)
    requires UniqueEmails(users)
    ensures Login(users, hash, email, password).Ok? <==>
              exists i :: 0 <= i < |users| && users[i].email == email
                          && PasswordMatches(users[i], hash, password)
  {
  }

  /** An unknown email and a wrong password give the very same reply. */
  lemma LoginNoUserEnumeration(users: seq<User>, hash: Hasher, unknown: string, p1: Option<string>,
                               known: string, p2: Option<string>)
    requires UniqueEmails(users)
    requires !EmailTaken(users, unknown)
    requires exists i :: 0 <= i < |users| && users[i].email == known && !PasswordMatches(users[i], hash, p2)
    ensures Login(users, hash, unknown, p1) == Login(users, hash, known, p2) == Error(401, Unauthorized)
  {
  }

  /** Signup keeps emails unique. */
  lemma SignupKeepsEmailsUnique(users: seq<User>, form: SignupForm, hash: Hasher, issued: Fresh,
                                avatar: Attempt<ImageRef>, save: Attempt<()>)
    requires UniqueEmails(users)
    ensures UniqueEmails(Signup(users, form, hash, issued, avatar, save).store)
  {
  }

  /** Round trip: right after a successful signup, logging in with the same email
      and password succeeds and replies with the token issued at signup. */
  lemma SignupThenLogin(users: seq<User>, form: SignupForm, hash: Hasher, issued: Fresh,
                        avatar: Attempt<ImageRef>, save: Attempt<()>)
    requires Signup(users, form, hash, issued, avatar, save).reply.Ok?
    ensures Login(Signup(users, form, hash, issued, avatar, save).store, hash, form.email.value, form.password)
            == Signup(users, form, hash, issued, avatar, save).reply
    ensures Signup(users, form, hash, issued, avatar, save).reply.body.token == issued.token
  {
  }

  /** The reply projection ignores the secrets: changing the hash, the salt, the
      email or the avatar of a user does not change what signup or login send back. */
  lemma SessionHidesSecrets(u: User, hash: string, salt: string, email: string, avatar: Option<ImageRef>)
    ensures SessionOf(u.(hash := hash, salt := salt, email := email, avatar := avatar)) == SessionOf(u)
  {
  }
}
