/**
 * The user-account operations: register, login, profile update, password
 * change, and the two-step forgotten-password flow, over a table of users.
 * Password hashing stays abstract: the table stores what the controller
 * assigns, and `matches(candidate, stored)` is the hash comparison.
 */
module AuthController {
  import opened Wrappers
  import opened Text

  type UserId = nat

  datatype User = User(id: UserId, firstName: string, lastName: string, email: string, password: string)

  /** The `{ id, firstName, lastName, email }` object every reply carries: never the password. */
  datatype PublicUser = PublicUser(id: UserId, firstName: string, lastName: string, email: string)

  function Public(u: User): PublicUser {
    PublicUser(u.id, u.firstName, u.lastName, u.email)
  }

  /** The payload of the signed session token: the user id alone. */
  datatype Token = Token(userId: UserId)

  /** A reply: a token and a user, a user alone, or a message, each with its HTTP status. */
  datatype AuthReply =
    | Session(status: nat, token: Token, user: PublicUser)
    | Profile(status: nat, user: PublicUser)
    | Message(status: nat, message: string)

  const UserExists := Message(400, "User already exists")
  const InvalidCredentials := Message(400, "Invalid credentials")
  const UserNotFound := Message(404, "User not found")
  const EmailVerificationFailed := Message(400, "Email verification failed")
  const WrongCurrentPassword := Message(400, "Current password is incorrect")
  const PasswordChanged := Message(200, "Password changed successfully")
  const UnknownEmail := Message(404, "User not found with this email")
  const EmailVerified := Message(200, "Email verified. You can now reset your password.")
  const PasswordReset := Message(200, "Password reset successfully")

  /** No two users share an email address (compared exactly, as `findOne({ email })` does). */
  predicate UniqueEmails(users: map<UserId, User>) {
    forall a, b :: a in users && b in users && users[a].email == users[b].email ==> a == b
  }

  /** What `updateProfile` makes of a user: each name replaced when the supplied one is truthy. */
  function Renamed(u: User, firstName: Option<string>, lastName: Option<string>): User {
    u.(firstName := if Truthy(firstName) then firstName.value else u.firstName,
       lastName := if Truthy(lastName) then lastName.value else u.lastName)
  }

  /** Renaming with nothing truthy is the identity, and a second identical rename changes nothing more. */
  lemma RenamedIdempotent(u: User, firstName: Option<string>, lastName: Option<string>)
    ensures !Truthy(firstName) && !Truthy(lastName) ==> Renamed(u, firstName, lastName) == u
    ensures Renamed(Renamed(u, firstName, lastName), firstName, lastName) == Renamed(u, firstName, lastName)
  {
  }

  class UserTable {
    /** The user collection, by id. */
    var users: map<UserId, User>
    /** The id the next registered user gets. */
    var nextUserId: UserId

    ghost predicate Valid()
      reads this
    {
      && (forall k :: k in users ==> users[k].id == k && k < nextUserId)
      && UniqueEmails(users)
    }

    constructor ()
      ensures Valid() && users == map[]
    {
      users := map[];
      nextUserId := 0;
    }

    /** Some user has this email address. */
    predicate HasEmail(email: string)
      reads this
    {
      exists k :: k in users && users[k].email == email
    }

    /** `User.findOne({ email })`: the id of the user with this exact email, if there is one. */
    method FindOne(email: string) returns (r: Option<UserId>)
      requires Valid()
      ensures r.Some? <==> HasEmail(email)
      ensures r.Some? ==> r.value in users && users[r.value].email == email
    {
      var pending := users.Keys;
      while pending != {}
        invariant pending <= users.Keys
        invariant forall k :: k in users.Keys - pending ==> users[k].email != email
        decreases pending
      {
        var k :| k in pending;
        if users[k].email == email {
          return Some(k);
        }
        pending := pending - {k};
      }
      return None;
    }

    /**
     * register: refused when the email is taken; otherwise exactly one user
     * is added, under a fresh id, and a session for it is returned.
     */
    method Register(firstName: string, lastName: string, email: string, password: string)
      returns (reply: AuthReply)
      requires Valid()
      modifies this
      ensures Valid()
      ensures old(HasEmail(email)) ==>
        reply == UserExists && users == old(users) && nextUserId == old(nextUserId)
      ensures !old(HasEmail(email)) ==>
        var u := User(old(nextUserId), firstName, lastName, email, password);
        && u.id !in old(users)
        && users == old(users)[u.id := u]
        && reply == Session(201, Token(u.id), Public(u))
    {
      var existing := FindOne(email);
      if existing.Some? {
        return UserExists;
      }
      var u := User(nextUserId, firstName, lastName, email, password);
      users := users[u.id := u];
      nextUserId := nextUserId + 1;
      reply := Session(201, Token(u.id), Public(u));
    }

    /**
     * login: a session exactly when a user has this email and the password
     * matches; an unknown email and a wrong password get the same reply.
     */
    method Login(email: string, password: string, matches: (string, string) -> bool)
      returns (reply: AuthReply)
      requires Valid()
      ensures reply.Session? || reply == InvalidCredentials
      ensures reply.Session? <==>
        exists k :: k in users && users[k].email == email && matches(password, users[k].password)
      ensures reply.Session? ==>
        && reply.token.userId in users
        && var u := users[reply.token.userId];
        && u.email == email && reply == Session(200, Token(u.id), Public(u))
    {
      var found := FindOne(email);
      if found.None? || !matches(password, users[found.value].password) {
        return InvalidCredentials;
      }
      var u := users[found.value];
      reply := Session(200, Token(u.id), Public(u));
    }

    /**
     * updateProfile for the authenticated user `principal`: the names are
     * replaced when the supplied values are truthy; email and password stay.
     */
    method UpdateProfile(principal: UserId, firstName: Option<string>, lastName: Option<string>)
      returns (reply: AuthReply)
      requires Valid()
      modifies this
      ensures Valid()
      ensures nextUserId == old(nextUserId)
      ensures principal !in old(users) ==> reply == UserNotFound && users == old(users)
      ensures principal in old(users) ==>
        var u := Renamed(old(users)[principal], firstName, lastName);
        users == old(users)[principal := u] && reply == Profile(200, Public(u))
    {
      if principal !in users {
        return UserNotFound;
      }
      var user := users[principal];
      user := user.(firstName := if Truthy(firstName) then firstName.value else user.firstName);
      user := user.(lastName := if Truthy(lastName) then lastName.value else user.lastName);
      users := users[principal := user];
      reply := Profile(200, Public(user));
    }

    /**
     * changePassword for the authenticated user `principal` (the record the
     * session middleware loaded): the email must be the principal's own,
     * checked first; then the stored user must still exist; then the
     * current password must match. Only then is the password replaced.
     * Any new password is accepted: there is no length check here.
     */
    method ChangePassword(principal: User, email: string, currentPassword: string, newPassword: string,
                          matches: (string, string) -> bool)
      returns (reply: AuthReply)
      requires Valid()
      modifies this
      ensures Valid()
      ensures nextUserId == old(nextUserId)
      ensures email != principal.email ==> reply == EmailVerificationFailed && users == old(users)
      ensures email == principal.email && principal.id !in old(users) ==>
        reply == UserNotFound && users == old(users)
      ensures email == principal.email && principal.id in old(users) &&
              !matches(currentPassword, old(users)[principal.id].password) ==>
        reply == WrongCurrentPassword && users == old(users)
      ensures email == principal.email && principal.id in old(users) &&
              matches(currentPassword, old(users)[principal.id].password) ==>
        && reply == PasswordChanged
        && users == old(users)[principal.id := old(users)[principal.id].(password := newPassword)]
    {
      if email != principal.email {
        return EmailVerificationFailed;
      }
      if principal.id !in users {
        return UserNotFound;
      }
      var user := users[principal.id];
      if !matches(currentPassword, user.password) {
        return WrongCurrentPassword;
      }
      user := user.(password := newPassword);
      users := users[principal.id := user];
      reply := PasswordChanged;
    }

    /** forgotPassword: tells whether the email is known, and changes nothing. */
    method ForgotPassword(email: string) returns (reply: AuthReply)
      requires Valid()
      ensures reply == (if HasEmail(email) then EmailVerified else UnknownEmail)
    {
      var found := FindOne(email);
      if found.None? {
        return UnknownEmail;
      }
      reply := EmailVerified;
    }

    /**
     * resetPassword: the password of the user with this email is replaced,
     * with no further check; an unknown email gets 404.
     */
    method ResetPassword(email: string, newPassword: string) returns (reply: AuthReply)
      requires Valid()
      modifies this
      ensures Valid()
      ensures nextUserId == old(nextUserId)
      ensures !old(HasEmail(email)) ==> reply == UserNotFound && users == old(users)
      ensures old(HasEmail(email)) ==>
        && reply == PasswordReset
        && exists k :: k in old(users) && old(users)[k].email == email &&
             users == old(users)[k := old(users)[k].(password := newPassword)]
    {
      var found := FindOne(email);
      if found.None? {
        return UserNotFound;
      }
      var k := found.value;
      var user := users[k];
      user := user.(password := newPassword);
      users := users[k := user];
      reply := PasswordReset;
    }
  }

  /**
   * A reset password is the one that logs in afterwards, when matching is
   * reflexive (a password matches the hash made of it).
   */
  method ResetThenLogin(t: UserTable, email: string, newPassword: string, matches: (string, string) -> bool)
    returns (reset: AuthReply, login: AuthReply)
    requires t.Valid() && t.HasEmail(email)
    requires forall p :: matches(p, p)
    modifies t
    ensures reset == PasswordReset && login.Session? && login.user.email == email
  {
    ghost var k :| k in t.users && t.users[k].email == email;
    reset := t.ResetPassword(email, newPassword);
    assert t.users[k].email == email && matches(newPassword, t.users[k].password);
    login := t.Login(email, newPassword, matches);
  }

  /** A second registration with the same email is refused and leaves the table as the first one left it. */
  method RegisterTwice(t: UserTable, firstName: string, lastName: string, email: string, password: string)
    returns (first: AuthReply, second: AuthReply)
    requires t.Valid() && !t.HasEmail(email)
    modifies t
    ensures first.Session? && first.status == 201 && first.user.email == email
    ensures second == UserExists
    ensures |t.users.Keys| == |old(t.users).Keys| + 1
  {
    first := t.Register(firstName, lastName, email, password);
    assert t.users[old(t.nextUserId)].email == email;
    assert t.users.Keys == old(t.users).Keys + {old(t.nextUserId)};
    second := t.Register(firstName, lastName, email, password);
  }
}
