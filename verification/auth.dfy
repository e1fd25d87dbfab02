/**
 The `isAuthenticated` middleware: the `authorization` header, with the first
 "Bearer " removed, must equal the token of some user; that user, projected to
 `account`, `email` and `_id`, becomes `req.user` and `next()` runs. Every other
 path replies 401 "Unauthorized." and does not call `next()`.
 */
module Auth {
  import opened Common
  import opened Text
  import opened Users

  const Bearer := "Bearer "

  /** `req.user`: the user document selected down to `account email _id`. */
  datatype Identity = Identity(id: nat, email: string, account: Account)

  /** Exactly one of: `next()` with `req.user` set, or an error reply. */
  datatype Gate = Next(user: Identity) | Reject(status: nat, message: string)

  function IdentityOf(u: User): Identity
  {
    Identity(u.id, u.email, u.account)
  }

  /** `authorization.replace("Bearer ", "")`. */
  function BearerToken(header: string): (t: string)
    ensures Absent(header, Bearer) ==> t == header
    ensures forall i: nat :: FirstOccurrence(header, Bearer, i) ==> t == header[..i] + header[i + |Bearer|..]
  {
    ReplaceFirst(header, Bearer, "")
  }

  predicate TokenHeld(users: seq<User>, token: string)
  {
    exists i :: 0 <= i < |users| && users[i].token == token
  }

  /** `User.findOne({ token })`: exact match. */
  function FindByToken(users: seq<User>, token: string): (r: Option<nat>)
    ensures r.Some? ==> r.value < |users| && users[r.value].token == token
    ensures r.Some? ==> forall j :: 0 <= j < r.value ==> users[j].token != token
    ensures r.None? <==> !TokenHeld(users, token)
  {
    FindFirst(users, (u: User) => u.token == token)
  }

  function IsAuthenticated(users: seq<User>, authorization: Option<string>): (g: Gate)
    ensures g.Reject? ==> g == Reject(401, Unauthorized)
    ensures g.Next? <==> Truthy(authorization) && TokenHeld(users, BearerToken(authorization.value))
    ensures g.Next? ==> exists i :: 0 <= i < |users| && users[i].token == BearerToken(authorization.value)
                                    && (forall j :: 0 <= j < i ==> users[j].token != BearerToken(authorization.value))
                                    && g.user == IdentityOf(users[i])
  {
    if !Truthy(authorization) then Reject(401, Unauthorized)
    else
      match FindByToken(users, BearerToken(authorization.value))
      case None => Reject(401, Unauthorized)
      case Some(i) => Next(IdentityOf(users[i]))
  }

  /** "Bearer " followed by a token yields exactly that token. */
  lemma BearerTokenOfPrefixed(t: string)
    ensures BearerToken(Bearer + t) == t
  {
  }

  /** The identity handed to the route holds nothing of the credentials:
      changing a user's token, hash, salt or avatar leaves it as it is. */
  lemma IdentityHidesSecrets(u: User, token: string, hash: string, salt: string, avatar: Option<ImageRef>)
    ensures IdentityOf(u.(token := token, hash := hash, salt := salt, avatar := avatar)) == IdentityOf(u)
  {
  }

  /** Round trip: once signup succeeds with a token no other user holds, the
      header "Bearer " + token authenticates as the new user. */
  lemma SignupThenAuthenticate(users: seq<User>, form: SignupForm, hash: Hasher, issued: Fresh,
                               avatar: Attempt<ImageRef>, save: Attempt<()>)
    requires Signup(users, form, hash, issued, avatar, save).reply.Ok?
    requires !TokenHeld(users, issued.token)
    ensures var s := Signup(users, form, hash, issued, avatar, save).store;
            IsAuthenticated(s, Some(Bearer + issued.token)) == Next(IdentityOf(s[|users|]))
  {
  }
}
