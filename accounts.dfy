/**
 * The account tables the auth, email and settings routes share: users, the
 * password-reset and email-verification tokens (each keyed by the token and
 * expiring at a time in seconds), the sound settings, and the mails sent.
 */
module Accounts {
  import opened Wrappers
  import opened Text

  datatype User = User(username: string, passwordHash: string, email: Option<string>, emailVerified: bool,
                       avatarUrl: Option<string>)

  datatype TokenRow = TokenRow(userId: int, expiresAt: int)

  /** The four volumes of a sound-settings row. */
  datatype Volumes = Volumes(input: real, send: real, notification: real, master: real)

  /** A mail handed to the mailer: its recipient's name and address and the token it carries. */
  datatype Mail =
    | ResetMail(username: string, email: string, token: string)
    | VerificationMail(username: string, email: string, token: string)

  /** A reply: an error with its status, or success with the status it is sent with. */
  datatype Reply = Failure(status: int, error: string) | Success(status: int)

  datatype Tables = Tables(users: map<int, User>, resetTokens: map<string, TokenRow>, verifyTokens: map<string, TokenRow>,
                           sound: map<int, Volumes>, outbox: seq<Mail>)

  /** A reset token lasts an hour, a verification token a day. */
  const RESET_TOKEN_SECONDS := 3600
  const VERIFY_TOKEN_SECONDS := 86400

  /** The password rule both register and reset-password apply. */
  predicate PasswordLengthOk(p: string) {
    8 <= |p| <= 128
  }

  /** The tokens that belong to `u`. */
  function TokensOf(tokens: map<string, TokenRow>, u: int): set<string> {
    set t | t in tokens && tokens[t].userId == u
  }

  /** `delete...TokensByUser`: the tokens of everyone but `u`. */
  function WithoutTokensOf(tokens: map<string, TokenRow>, u: int): (r: map<string, TokenRow>)
    ensures TokensOf(r, u) == {}
    ensures forall t :: t in r <==> t in tokens && tokens[t].userId != u
    ensures forall t :: t in r ==> r[t] == tokens[t]
  {
    map t | t in tokens && tokens[t].userId != u :: tokens[t]
  }

  /** A token that exists and has not expired at `now` (`expires_at > datetime('now')`). */
  predicate Live(tokens: map<string, TokenRow>, token: string, now: int) {
    token in tokens && tokens[token].expiresAt > now
  }

  /** `checkEmailTaken`: another user has this address. */
  predicate EmailTaken(users: map<int, User>, email: string, me: int) {
    exists id :: id in users && id != me && users[id].email == Some(email)
  }

  /** The user with this username, if any. */
  predicate UsernameTaken(users: map<int, User>, username: string) {
    exists id :: id in users && users[id].username == username
  }

  /** `updateUserEmail`: the new address, not yet verified. */
  function SetEmail(users: map<int, User>, u: int, email: string): map<int, User> {
    if u in users then users[u := users[u].(email := Some(email), emailVerified := false)] else users
  }

  /**
   * Replaces the user's verification tokens with `token`, valid for a day,
   * and mails it. A token that clashes with a stored one is refused by the
   * token key, after the old tokens are already gone.
   */
  function NewVerification(t: Tables, u: int, username: string, email: string, token: string, now: int): (Tables, Reply) {
    var cleared := t.(verifyTokens := WithoutTokensOf(t.verifyTokens, u));
    if token in cleared.verifyTokens then (cleared, Failure(500, "Internal Server Error"))
    else
      (cleared.(verifyTokens := cleared.verifyTokens[token := TokenRow(u, now + VERIFY_TOKEN_SECONDS)],
                outbox := cleared.outbox + [VerificationMail(username, email, token)]),
       Success(200))
  }

  /** After a fresh verification the user has exactly that one token, and no other user's token changed. */
  lemma NewVerificationLeavesOne(t: Tables, u: int, username: string, email: string, token: string, now: int)
    requires token !in t.verifyTokens || t.verifyTokens[token].userId == u
    ensures var (t', reply) := NewVerification(t, u, username, email, token, now);
            && reply == Success(200)
            && TokensOf(t'.verifyTokens, u) == {token}
            && Live(t'.verifyTokens, token, now)
            && (forall k :: k in t.verifyTokens && t.verifyTokens[k].userId != u ==> k in t'.verifyTokens && t'.verifyTokens[k] == t.verifyTokens[k])
            && t'.users == t.users && t'.resetTokens == t.resetTokens
  {
    var (t', reply) := NewVerification(t, u, username, email, token, now);
    assert TokensOf(t'.verifyTokens, u) == {token} by {
      forall k | k in TokensOf(t'.verifyTokens, u) ensures k == token {
      }
    }
  }

  /** The tables, updated in place one statement at a time. */
  class AccountsDb {
    var users: map<int, User>
    var resetTokens: map<string, TokenRow>
    var verifyTokens: map<string, TokenRow>
    var sound: map<int, Volumes>
    var outbox: seq<Mail>

    ghost function State(): Tables
      reads this
    {
      Tables(users, resetTokens, verifyTokens, sound, outbox)
    }

    constructor ()
      ensures State() == Tables(map[], map[], map[], map[], [])
    {
      users, resetTokens, verifyTokens, sound, outbox := map[], map[], map[], map[], [];
    }

    method CreateUser(id: int, username: string, passwordHash: string)
      modifies this
      ensures State() == old(State()).(users := old(users)[id := User(username, passwordHash, None, false, None)])
    {
      users := users[id := User(username, passwordHash, None, false, None)];
    }

    method UpdateUser(id: int, user: User)
      requires id in users
      modifies this
      ensures State() == old(State()).(users := old(users)[id := user])
    {
      users := users[id := user];
    }

    method DeleteResetTokensByUser(u: int)
      modifies this
      ensures State() == old(State()).(resetTokens := WithoutTokensOf(old(resetTokens), u))
    {
      resetTokens := map t | t in resetTokens && resetTokens[t].userId != u :: resetTokens[t];
    }

    method DeleteVerificationTokensByUser(u: int)
      modifies this
      ensures State() == old(State()).(verifyTokens := WithoutTokensOf(old(verifyTokens), u))
    {
      verifyTokens := map t | t in verifyTokens && verifyTokens[t].userId != u :: verifyTokens[t];
    }

    method CreateResetToken(u: int, token: string, expiresAt: int)
      requires token !in resetTokens
      modifies this
      ensures State() == old(State()).(resetTokens := old(resetTokens)[token := TokenRow(u, expiresAt)])
    {
      resetTokens := resetTokens[token := TokenRow(u, expiresAt)];
    }

    method CreateVerificationToken(u: int, token: string, expiresAt: int)
      requires token !in verifyTokens
      modifies this
      ensures State() == old(State()).(verifyTokens := old(verifyTokens)[token := TokenRow(u, expiresAt)])
    {
      verifyTokens := verifyTokens[token := TokenRow(u, expiresAt)];
    }

    method UpsertUserSettings(u: int, v: Volumes)
      modifies this
      ensures State() == old(State()).(sound := old(sound)[u := v])
    {
      sound := sound[u := v];
    }

    method Send(mail: Mail)
      modifies this
      ensures State() == old(State()).(outbox := old(outbox) + [mail])
    {
      outbox := outbox + [mail];
    }

    method UsernameExists(username: string) returns (b: bool)
      ensures b == UsernameTaken(users, username)
    {
      b := exists id | id in users :: users[id].username == username;
    }

    method CheckEmailTaken(email: string, me: int) returns (b: bool)
      ensures b == EmailTaken(users, email, me)
    {
      b := exists id | id in users :: id != me && users[id].email == Some(email);
    }

    /** The part the email routes share: new address, fresh verification token, mail. */
    method StartVerification(u: int, username: string, email: string, token: string, now: int) returns (reply: Reply)
      modifies this
      ensures var (t, r) := NewVerification(old(State()).(users := SetEmail(old(users), u, email)), u, username, email, token, now);
              State() == t && reply == r
    {
      if u in users {
        UpdateUser(u, users[u].(email := Some(email), emailVerified := false));
      }
      DeleteVerificationTokensByUser(u);
      if token in verifyTokens {
        return Failure(500, "Internal Server Error");
      }
      CreateVerificationToken(u, token, now + VERIFY_TOKEN_SECONDS);
      Send(VerificationMail(username, email, token));
      reply := Success(200);
    }
  }
}
