/**
 * The authentication routes that change or read the account tables:
 * registration and the password-reset flow. The session cookie and the
 * JWT it carries are not part of this model; bcrypt is the function `hash`,
 * and the random reset token and the new row id are passed in.
 */
module AuthRoutes {
  import opened Wrappers
  import opened Text
  import opened Accounts

  /** The characters of `[a-zA-Z0-9_]`. */
  predicate WordChar(c: char) {
    ('a' <= c <= 'z') || ('A' <= c <= 'Z') || ('0' <= c <= '9') || c == '_'
  }

  /** `USERNAME_RE`, `^[a-zA-Z0-9_]{3,20}$`: three to twenty word characters and nothing else. */
  predicate UsernameOk(s: string) {
    3 <= |s| <= 20 && forall i :: 0 <= i < |s| ==> WordChar(s[i])
  }

  /** A user as the routes send it. */
  datatype UserView = UserView(id: int, username: string, email: Option<string>, emailVerified: bool)

  /** `sanitizeUser`: the id, the name, the address (null when empty) and whether it is verified. */
  function SanitizeUser(id: int, u: User): (v: UserView)
    ensures v.id == id && v.username == u.username && v.emailVerified == u.emailVerified
    ensures v.email.Some? <==> Truthy(u.email)
    ensures v.email.Some? ==> v.email == u.email
  {
    UserView(id, u.username, if Truthy(u.email) then u.email else None, u.emailVerified)
  }

  /** The route's reply: a refusal, a user, or plain success. */
  datatype Answer = Refused(status: int, error: string) | Registered(user: UserView) | Ok(message: Option<string>)

  const GENERIC := "If an account exists with that email, we sent a reset link"

  /** POST /api/auth/register; `newId` is the row id the insert is given. */
  function Register(t: Tables, username: Option<string>, password: Option<string>, newId: int, hash: string -> string): (Tables, Answer) {
    if !Truthy(username) || !UsernameOk(username.value) then
      (t, Refused(400, "Username must be 3-20 characters (letters, numbers, underscores)"))
    else if !Truthy(password) || !PasswordLengthOk(password.value) then (t, Refused(400, "Password must be 8-128 characters"))
    else Enroll(t, username.value, password.value, newId, hash)
  }

  /** The rest of `register` once the name and the password have passed: the name must be free. */
  function Enroll(t: Tables, username: string, password: string, newId: int, hash: string -> string): (Tables, Answer) {
    if UsernameTaken(t.users, username) then (t, Refused(409, "Username already taken"))
    else if newId in t.users then (t, Refused(500, "Internal Server Error"))
    else
      var user := User(username, hash(password), None, false, None);
      (t.(users := t.users[newId := user]), Registered(SanitizeUser(newId, user)))
  }

  /** What `findUserByEmail` answers: a user with this verified address, or none when there is none. */
  ghost predicate FoundByEmail(users: map<int, User>, email: string, found: Option<int>) {
    if found.Some? then found.value in users && users[found.value].email == Some(email) && users[found.value].emailVerified
    else forall id :: id in users ==> !(users[id].email == Some(email) && users[id].emailVerified)
  }

  /** POST /api/auth/request-reset; `found` is the user `findUserByEmail` answers. */
  function RequestReset(t: Tables, email: Option<string>, found: Option<int>, token: string, now: int): (Tables, Answer)
    requires email.Some? ==> FoundByEmail(t.users, email.value, found)
  {
    if !Truthy(email) then (t, Refused(400, "Email required"))
    else if found.None? then (t, Ok(Some(GENERIC)))
    else
      var u := found.value;
      var cleared := t.(resetTokens := WithoutTokensOf(t.resetTokens, u));
      if token in cleared.resetTokens then (cleared, Refused(500, "Internal Server Error"))
      else
        (cleared.(resetTokens := cleared.resetTokens[token := TokenRow(u, now + RESET_TOKEN_SECONDS)],
                  outbox := cleared.outbox + [ResetMail(t.users[u].username, email.value, token)]),
         Ok(Some(GENERIC)))
  }

  /** POST /api/auth/reset-password */
  function ResetPassword(t: Tables, token: Option<string>, password: Option<string>, hash: string -> string, now: int): (Tables, Answer) {
    if !Truthy(token) || !Truthy(password) then (t, Refused(400, "Token and password required"))
    else if !PasswordLengthOk(password.value) then (t, Refused(400, "Password must be 8-128 characters"))
    else if !Live(t.resetTokens, token.value, now) then (t, Refused(400, "Invalid or expired reset token"))
    else
      var u := t.resetTokens[token.value].userId;
      var users := if u in t.users then t.users[u := t.users[u].(passwordHash := hash(password.value))] else t.users;
      (t.(users := users, resetTokens := WithoutTokensOf(t.resetTokens, u)), Ok(None))
  }

  // ---------------------------------------------------------------------------
  // What the routes promise

  /**
   * An account is created exactly when the name matches the username
   * pattern, the password has 8 to 128 characters and the name is free;
   * the new user has no address and is unverified. A taken name gives 409
   * and no change.
   */
  lemma RegisterRules(t: Tables, username: string, password: string, newId: int, hash: string -> string)
    requires newId !in t.users
    ensures var (t', a) := Register(t, Some(username), Some(password), newId, hash);
            && (a.Registered? <==> UsernameOk(username) && PasswordLengthOk(password) && !UsernameTaken(t.users, username))
            && (UsernameOk(username) && PasswordLengthOk(password) && UsernameTaken(t.users, username) ==>
                  a == Refused(409, "Username already taken") && t' == t)
            && (!a.Registered? ==> t' == t)
            && (a.Registered? ==>
                  && t'.users == t.users[newId := User(username, hash(password), None, false, None)]
                  && a.user == UserView(newId, username, None, false))
  {
  }

  /** Whether or not the address belongs to a verified user, the reply is the same. */
  lemma RequestResetGeneric(t: Tables, email: string, found: Option<int>, token: string, now: int)
    requires email != "" && FoundByEmail(t.users, email, found)
    requires token !in t.resetTokens
    ensures RequestReset(t, Some(email), found, token, now).1 == Ok(Some(GENERIC))
  {
  }

  /**
   * A reset request leaves the user with exactly the one new token, live
   * for an hour, and mails it to the address asked for.
   */
  lemma RequestResetLeavesOne(t: Tables, email: string, u: int, token: string, now: int)
    requires email != "" && FoundByEmail(t.users, email, Some(u))
    requires token !in t.resetTokens || t.resetTokens[token].userId == u
    ensures var (t', _) := RequestReset(t, Some(email), Some(u), token, now);
            && TokensOf(t'.resetTokens, u) == {token}
            && t'.resetTokens[token] == TokenRow(u, now + 3600)
            && t'.outbox == t.outbox + [ResetMail(t.users[u].username, email, token)]
            && t'.users == t.users
  {
    var (t', _) := RequestReset(t, Some(email), Some(u), token, now);
    assert TokensOf(t'.resetTokens, u) == {token} by {
      forall k | k in TokensOf(t'.resetTokens, u) ensures k == token {
      }
    }
  }

  /** A refused reset request changes no table and sends nothing when no verified user has the address. */
  lemma RequestResetUnknownNoChange(t: Tables, email: string, token: string, now: int)
    requires FoundByEmail(t.users, email, None)
    ensures RequestReset(t, Some(email), None, token, now).0 == t
  {
  }

  /**
   * A reset succeeds only with a live token and an allowed password; it
   * sets the owner's password and removes every reset token of theirs, and
   * leaves other users' tokens alone.
   */
  lemma ResetRules(t: Tables, token: Option<string>, password: Option<string>, hash: string -> string, now: int)
    ensures var (t', a) := ResetPassword(t, token, password, hash, now);
            && (a.Ok? <==> Truthy(token) && Truthy(password) && PasswordLengthOk(password.value) && Live(t.resetTokens, token.value, now))
            && (!a.Ok? ==> t' == t)
            && (a.Ok? ==>
                  var u := t.resetTokens[token.value].userId;
                  && TokensOf(t'.resetTokens, u) == {}
                  && !Live(t'.resetTokens, token.value, now)
                  && (u in t.users ==> t'.users[u].passwordHash == hash(password.value))
                  && (forall k :: k in t.resetTokens && t.resetTokens[k].userId != u ==> k in t'.resetTokens))
  {
  }

  // ---------------------------------------------------------------------------
  // The routes, statement by statement on the tables

  method HandleRegister(db: AccountsDb, username: Option<string>, password: Option<string>, newId: int, hash: string -> string)
    returns (answer: Answer)
    modifies db
    ensures var (t, a) := Register(old(db.State()), username, password, newId, hash);
            db.State() == t && answer == a
  {
    if username.None? || username.value == "" || !UsernameOk(username.value) {
      return Refused(400, "Username must be 3-20 characters (letters, numbers, underscores)");
    }
    if password.None? || password.value == "" || |password.value| < 8 || |password.value| > 128 {
      return Refused(400, "Password must be 8-128 characters");
    }
    assert Register(db.State(), username, password, newId, hash) == Enroll(db.State(), username.value, password.value, newId, hash);
    answer := HandleEnroll(db, username.value, password.value, newId, hash);
  }

  method HandleEnroll(db: AccountsDb, username: string, password: string, newId: int, hash: string -> string)
    returns (answer: Answer)
    modifies db
    ensures var (t, a) := Enroll(old(db.State()), username, password, newId, hash);
            db.State() == t && answer == a
  {
    var existing := db.UsernameExists(username);
    if existing {
      return Refused(409, "Username already taken");
    }
    if newId in db.users {
      return Refused(500, "Internal Server Error");
    }
    var passwordHash := hash(password);
    db.CreateUser(newId, username, passwordHash);
    answer := Registered(SanitizeUser(newId, db.users[newId]));
  }

  method HandleRequestReset(db: AccountsDb, email: Option<string>, found: Option<int>, token: string, now: int)
    returns (answer: Answer)
    requires email.Some? ==> FoundByEmail(db.users, email.value, found)
    modifies db
    ensures var (t, a) := RequestReset(old(db.State()), email, found, token, now);
            db.State() == t && answer == a
  {
    if email.None? || email.value == "" {
      return Refused(400, "Email required");
    }
    if found.None? {
      return Ok(Some(GENERIC));
    }
    var u := found.value;
    var username := db.users[u].username;
    db.DeleteResetTokensByUser(u);
    if token in db.resetTokens {
      return Refused(500, "Internal Server Error");
    }
    db.CreateResetToken(u, token, now + RESET_TOKEN_SECONDS);
    db.Send(ResetMail(username, email.value, token));
    answer := Ok(Some(GENERIC));
  }

  method HandleResetPassword(db: AccountsDb, token: Option<string>, password: Option<string>, hash: string -> string, now: int)
    returns (answer: Answer)
    modifies db
    ensures var (t, a) := ResetPassword(old(db.State()), token, password, hash, now);
            db.State() == t && answer == a
  {
    if token.None? || token.value == "" || password.None? || password.value == "" {
      return Refused(400, "Token and password required");
    }
    if |password.value| < 8 || |password.value| > 128 {
      return Refused(400, "Password must be 8-128 characters");
    }
    if token.value !in db.resetTokens || db.resetTokens[token.value].expiresAt <= now {
      return Refused(400, "Invalid or expired reset token");
    }
    var u := db.resetTokens[token.value].userId;
    var passwordHash := hash(password.value);
    if u in db.users {
      db.UpdateUser(u, db.users[u].(passwordHash := passwordHash));
    }
    db.DeleteResetTokensByUser(u);
    answer := Ok(None);
  }
}
