/**
 * `UserManager` of backend/models/user_model.py: accounts in the `users`
 * table move from registered (unverified, with a token valid 24 hours) to
 * verified with a password, and only then authenticate. A user's `id` is
 * its position in the table plus one (the SERIAL column; rows are never
 * deleted). Times are seconds; `now`, the generated token and the SHA-256
 * hex digest are parameters.
 */
module Users {
  import opened Wrappers
  import opened Text

  /** A row of `users`. */
  datatype User = User(email: string, passwordHash: Option<string>, isVerified: bool,
                       verificationToken: Option<string>, tokenExpires: Option<int>)

  /** What a successful verification or login returns: `user_id` and `email`. */
  datatype Account = Account(userId: nat, email: string)

  /** 24 hours, the lifetime of a verification token. */
  const TokenLifetime: int := 86400

  /** `is_valid_email`: only company addresses may register. */
  predicate IsValidEmail(email: string) {
    EndsWith(email, "@wefabricate.com")
  }

  /** The `UNIQUE` constraint on `email`. */
  predicate EmailsUnique(users: seq<User>) {
    forall i, j :: 0 <= i < j < |users| ==> users[i].email != users[j].email
  }

  predicate EmailTaken(users: seq<User>, email: string) {
    exists i :: 0 <= i < |users| && users[i].email == email
  }

  /** The position of the first row with this email. */
  function FindEmail(users: seq<User>, email: string): (r: Option<nat>)
    ensures r.Some? ==> r.value < |users| && users[r.value].email == email
    ensures r.Some? ==> forall j :: 0 <= j < r.value ==> users[j].email != email
    ensures r.None? <==> !EmailTaken(users, email)
    decreases |users|
  {
    if users == [] then None
    else if users[0].email == email then Some(0)
    else match FindEmail(users[1..], email)
      case None =>
        assert forall i :: 1 <= i < |users| ==> users[i] == users[1..][i - 1];
        None
      case Some(j) => Some(j + 1)
  }

  /** `register_user`: the table with one new unverified user holding `token`, or None when refused. */
  function Register(users: seq<User>, email: string, token: string, now: int): (r: Option<seq<User>>)
    ensures r.Some? <==> IsValidEmail(email) && !EmailTaken(users, email)
    ensures r.Some? ==> r.value == users + [User(email, None, false, Some(token), Some(now + TokenLifetime))]
  {
    if !IsValidEmail(email) then None
    else if FindEmail(users, email).Some? then None
    else Some(users + [User(email, None, false, Some(token), Some(now + TokenLifetime))])
  }

  /** The first unverified user holding this token. */
  function FindToken(users: seq<User>, token: string): (r: Option<nat>)
    ensures r.Some? ==> r.value < |users| && users[r.value].verificationToken == Some(token) && !users[r.value].isVerified
    ensures r.Some? ==> forall j :: 0 <= j < r.value ==> !(users[j].verificationToken == Some(token) && !users[j].isVerified)
    ensures r.None? ==> forall j :: 0 <= j < |users| ==> !(users[j].verificationToken == Some(token) && !users[j].isVerified)
    decreases |users|
  {
    if users == [] then None
    else if users[0].verificationToken == Some(token) && !users[0].isVerified then Some(0)
    else match FindToken(users[1..], token)
      case None =>
        assert forall i :: 1 <= i < |users| ==> users[i] == users[1..][i - 1];
        None
      case Some(j) => Some(j + 1)
  }

  /** `verify_user`: the account of the token's user while the token is valid (`now` not after its expiry). */
  function Verify(users: seq<User>, token: string, now: int): (r: Option<Account>)
    ensures r.Some? ==> 1 <= r.value.userId <= |users|
    ensures r.Some? ==> var u := users[r.value.userId - 1];
      u.verificationToken == Some(token) && !u.isVerified && u.email == r.value.email
      && u.tokenExpires.Some? && now <= u.tokenExpires.value
  {
    match FindToken(users, token)
    case None => None
    case Some(i) =>
      match users[i].tokenExpires
      case None => None
      case Some(expires) => if now > expires then None else Some(Account(i + 1, users[i].email))
  }

  /** `set_user_password` as written: any existing id takes the password, verified or not. */
  function SetPasswordAsWritten(users: seq<User>, userId: int, passwordHash: string): (r: Option<seq<User>>)
    ensures r.Some? <==> 1 <= userId <= |users|
    ensures r.Some? ==> |r.value| == |users|
    ensures r.Some? ==> var u := r.value[userId - 1];
      u.email == users[userId - 1].email && u.passwordHash == Some(passwordHash) && u.isVerified
      && u.verificationToken.None? && u.tokenExpires.None?
    ensures r.Some? ==> forall j :: 0 <= j < |users| && j != userId - 1 ==> r.value[j] == users[j]
  {
    if 1 <= userId <= |users| then
      var u := users[userId - 1];
      Some(users[userId - 1 := User(u.email, Some(passwordHash), true, None, None)])
    else None
  }

  /** `set_user_password` as its failure message describes it: only a user not yet verified takes a password. */
  function SetPassword(users: seq<User>, userId: int, passwordHash: string): (r: Option<seq<User>>)
    ensures r.Some? <==> 1 <= userId <= |users| && !users[userId - 1].isVerified
    ensures r.Some? ==> |r.value| == |users|
    ensures r.Some? ==> var u := r.value[userId - 1];
      u.email == users[userId - 1].email && u.passwordHash == Some(passwordHash) && u.isVerified
      && u.verificationToken.None? && u.tokenExpires.None?
    ensures r.Some? ==> forall j :: 0 <= j < |users| && j != userId - 1 ==> r.value[j] == users[j]
  {
    if 1 <= userId <= |users| && !users[userId - 1].isVerified then SetPasswordAsWritten(users, userId, passwordHash)
    else None
  }

  /** `authenticate_user`: the account of a verified user whose stored hash is the password's. */
  function Authenticate(users: seq<User>, email: string, password: string, sha256: string -> string)
    : (r: Option<Account>)
    ensures r.Some? ==> 1 <= r.value.userId <= |users| && r.value.email == email
    ensures r.Some? ==> var u := users[r.value.userId - 1];
      u.email == email && u.isVerified && u.passwordHash == Some(sha256(password))
    ensures !EmailTaken(users, email) ==> r.None?
  {
    match FindEmail(users, email)
    case None => None
    case Some(i) =>
      if !users[i].isVerified then None
      else if users[i].passwordHash != Some(sha256(password)) then None
      else Some(Account(i + 1, email))
  }

  /** The `users` table. */
  class UserStore {
    var users: seq<User>

    ghost predicate Valid()
      reads this
    {
      EmailsUnique(users)
    }

    constructor()
      ensures users == [] && Valid()
    {
      users := [];
    }

    /** `register_user(email)` with the generated `token`; on success the token is what the caller mails. */
    method RegisterUser(email: string, token: string, now: int) returns (ok: bool)
      requires Valid()
      modifies this
      ensures Valid()
      ensures ok <==> Register(old(users), email, token, now).Some?
      ensures users == (if ok then Register(old(users), email, token, now).value else old(users))
    {
      if !IsValidEmail(email) {
        return false;
      }
      if FindEmail(users, email).Some? {
        return false;
      }
      users := users + [User(email, None, false, Some(token), Some(now + TokenLifetime))];
      ok := true;
    }

    /** `verify_user`: reads the table only. */
    method VerifyUser(token: string, now: int) returns (r: Option<Account>)
      ensures r == Verify(users, token, now)
    {
      var found := FindToken(users, token);
      if found.None? {
        return None;
      }
      var u := users[found.value];
      if u.tokenExpires.None? || now > u.tokenExpires.value {
        return None;
      }
      return Some(Account(found.value + 1, u.email));
    }

    /** `set_user_password` as written: the `UPDATE ... WHERE id = %s` succeeds for any existing id. */
    method SetUserPassword(userId: int, password: string, sha256: string -> string) returns (ok: bool)
      requires Valid()
      modifies this
      ensures Valid()
      ensures ok <==> SetPasswordAsWritten(old(users), userId, sha256(password)).Some?
      ensures users == (if ok then SetPasswordAsWritten(old(users), userId, sha256(password)).value else old(users))
    {
      if !(1 <= userId <= |users|) {
        return false;
      }
      var u := users[userId - 1];
      users := users[userId - 1 := User(u.email, Some(sha256(password)), true, None, None)];
      ok := true;
    }

    /** `authenticate_user`: reads the table only. */
    method AuthenticateUser(email: string, password: string, sha256: string -> string) returns (r: Option<Account>)
      ensures r == Authenticate(users, email, password, sha256)
    {
      var found := FindEmail(users, email);
      if found.None? {
        return None;
      }
      var u := users[found.value];
      if !u.isVerified || u.passwordHash != Some(sha256(password)) {
        return None;
      }
      return Some(Account(found.value + 1, email));
    }
  }

  // ---------------------------------------------------------------------------
  // Properties

  /** Registration keeps emails unique. */
  lemma RegisterKeepsEmailsUnique(users: seq<User>, email: string, token: string, now: int)
    requires EmailsUnique(users) && Register(users, email, token, now).Some?
    ensures EmailsUnique(Register(users, email, token, now).value)
  {
    var r := Register(users, email, token, now).value;
    forall i, j | 0 <= i < j < |r| ensures r[i].email != r[j].email {
      if j == |users| {
        assert r[i] == users[i];
      } else {
        assert r[i] == users[i] && r[j] == users[j];
      }
    }
  }

  /** A freshly registered user cannot log in until a password is set. */
  lemma NewUserCannotAuthenticate(users: seq<User>, email: string, token: string, now: int, password: string,
                                  sha256: string -> string)
    requires EmailsUnique(users) && Register(users, email, token, now).Some?
    ensures Authenticate(Register(users, email, token, now).value, email, password, sha256).None?
  {
    var r := Register(users, email, token, now).value;
    forall j | 0 <= j < |users| ensures r[j].email != email {
      assert r[j] == users[j];
    }
    assert r[|users|].email == email;
  }

  /** A token is refused once its lifetime has passed, and accepted up to its expiry when it has no earlier holder. */
  lemma VerifyWithinLifetime(users: seq<User>, email: string, token: string, now: int, later: int)
    requires Register(users, email, token, now).Some?
    requires forall j :: 0 <= j < |users| ==> !(users[j].verificationToken == Some(token) && !users[j].isVerified)
    ensures later <= now + TokenLifetime ==>
      Verify(Register(users, email, token, now).value, token, later) == Some(Account(|users| + 1, email))
    ensures later > now + TokenLifetime ==> Verify(Register(users, email, token, now).value, token, later).None?
  {
    var r := Register(users, email, token, now).value;
    forall j | 0 <= j < |users| ensures !(r[j].verificationToken == Some(token) && !r[j].isVerified) {
      assert r[j] == users[j];
    }
    assert r[|users|].verificationToken == Some(token) && !r[|users|].isVerified;
  }

  /** Setting a password ends the token: it no longer verifies, and the user now logs in with that password. */
  lemma SetPasswordThenAuthenticate(users: seq<User>, userId: int, password: string, sha256: string -> string,
                                    token: string, now: int)
    requires EmailsUnique(users) && SetPassword(users, userId, sha256(password)).Some?
    ensures var r := SetPassword(users, userId, sha256(password)).value;
      Authenticate(r, users[userId - 1].email, password, sha256) == Some(Account(userId, users[userId - 1].email))
    ensures var r := SetPassword(users, userId, sha256(password)).value;
      Verify(r, token, now).None? || Verify(r, token, now).value.userId != userId
  {
    var r := SetPassword(users, userId, sha256(password)).value;
    var email := users[userId - 1].email;
    assert r[userId - 1].email == email;
    forall j | 0 <= j < userId - 1 ensures r[j].email != email {
      assert r[j] == users[j];
    }
  }

  /** As written, setting a password ends the token and lets the user log in with it, verified before or not. */
  lemma SetPasswordAsWrittenThenAuthenticate(users: seq<User>, userId: int, password: string,
                                             sha256: string -> string, token: string, now: int)
    requires EmailsUnique(users) && 1 <= userId <= |users|
    ensures SetPasswordAsWritten(users, userId, sha256(password)).Some?
    ensures var r := SetPasswordAsWritten(users, userId, sha256(password)).value;
      Authenticate(r, users[userId - 1].email, password, sha256) == Some(Account(userId, users[userId - 1].email))
    ensures var r := SetPasswordAsWritten(users, userId, sha256(password)).value;
      Verify(r, token, now).None? || Verify(r, token, now).value.userId != userId
  {
    var r := SetPasswordAsWritten(users, userId, sha256(password)).value;
    var email := users[userId - 1].email;
    assert r[userId - 1].email == email;
    forall j | 0 <= j < userId - 1 ensures r[j].email != email {
      assert r[j] == users[j];
    }
  }

  /** The whole life of an account: register, verify in time, set a password, authenticate. */
  lemma AccountLifecycle(users: seq<User>, email: string, token: string, now: int, later: int, password: string,
                         sha256: string -> string)
    requires EmailsUnique(users) && Register(users, email, token, now).Some? && later <= now + TokenLifetime
    requires forall j :: 0 <= j < |users| ==> !(users[j].verificationToken == Some(token) && !users[j].isVerified)
    ensures var registered := Register(users, email, token, now).value;
      var account := Verify(registered, token, later);
      account == Some(Account(|users| + 1, email))
      && SetPasswordAsWritten(registered, |users| + 1, sha256(password)).Some?
      && Authenticate(SetPasswordAsWritten(registered, |users| + 1, sha256(password)).value, email, password, sha256)
         == Some(Account(|users| + 1, email))
  {
    var registered := Register(users, email, token, now).value;
    VerifyWithinLifetime(users, email, token, now, later);
    RegisterKeepsEmailsUnique(users, email, token, now);
    assert registered[|users|].email == email;
    SetPasswordAsWrittenThenAuthenticate(registered, |users| + 1, password, sha256, token, later);
  }

  /** As written, `set_user_password` also overwrites the password of a user who is already verified. */
  lemma AsWrittenResetsVerifiedUser(users: seq<User>, userId: int, passwordHash: string)
    requires 1 <= userId <= |users| && users[userId - 1].isVerified
    ensures SetPasswordAsWritten(users, userId, passwordHash).Some?
    ensures SetPasswordAsWritten(users, userId, passwordHash).value[userId - 1].passwordHash == Some(passwordHash)
    ensures SetPassword(users, userId, passwordHash).None?
  {
  }

  /** With the guard, a verified user's password can be set by no call. */
  lemma VerifiedPasswordStays(users: seq<User>, userId: int, passwordHash: string, sha256: string -> string,
                              password: string)
    requires 1 <= userId <= |users| && users[userId - 1].isVerified
    requires Authenticate(users, users[userId - 1].email, password, sha256).Some?
    requires EmailsUnique(users)
    ensures SetPassword(users, userId, passwordHash).None?
  {
  }
}
