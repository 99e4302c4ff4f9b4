/**
 * The email routes: adding an address to the signed-in account, and
 * verifying it with the token the mail carried. The random token is passed
 * in.
 */
module EmailRoutes {
  import opened Wrappers
  import opened Text
  import opened Accounts

  /** `[^\s@]`: neither white space nor `@`. */
  predicate Plain(c: char) {
    !IsSpace(c) && c != '@'
  }

  predicate AllPlain(s: string) {
    forall k :: 0 <= k < |s| ==> Plain(s[k])
  }

  /**
   * What `EMAIL_RE`, `^[^\s@]+@[^\s@]+\.[^\s@]+$`, matches: a nonempty
   * local part, `@`, a nonempty domain part, a dot, and a nonempty last
   * part, none of them holding white space or `@`. The domain part may hold
   * dots itself, so the dot at `j` is any one of them.
   */
  ghost predicate EmailShape(s: string) {
    exists i, j :: 0 < i && i + 1 < j < |s| - 1 && s[i] == '@' && s[j] == '.'
                 && AllPlain(s[..i]) && AllPlain(s[i + 1..j]) && AllPlain(s[j + 1..])
  }

  /** The test the route runs: no white space, a single `@` after the first character, and a dot two or more past it, not last. */
  predicate EmailOk(s: string) {
    && (forall k :: 0 <= k < |s| ==> !IsSpace(s[k]))
    && exists i :: 0 < i < |s| && s[i] == '@'
                && (forall k :: 0 <= k < |s| && k != i ==> s[k] != '@')
                && exists j :: i + 1 < j < |s| - 1 && s[j] == '.'
  }

  /** The test accepts exactly the addresses the pattern matches. */
  lemma EmailOkMatchesPattern(s: string)
    ensures EmailOk(s) <==> EmailShape(s)
  {
    if EmailOk(s) {
      OkHasShape(s);
    }
    if EmailShape(s) {
      ShapeIsOk(s);
    }
  }

  lemma OkHasShape(s: string)
    requires EmailOk(s)
    ensures EmailShape(s)
  {
    var i :| 0 < i < |s| && s[i] == '@' && (forall k :: 0 <= k < |s| && k != i ==> s[k] != '@')
              && exists j :: i + 1 < j < |s| - 1 && s[j] == '.';
    var j :| i + 1 < j < |s| - 1 && s[j] == '.';
    PlainSlice(s, i, 0, i);
    PlainSlice(s, i, i + 1, j);
    PlainSlice(s, i, j + 1, |s|);
  }

  /** A slice of an accepted address that avoids its `@` is plain. */
  lemma PlainSlice(s: string, at: int, lo: int, hi: int)
    requires 0 <= lo <= hi <= |s| && !(lo <= at < hi)
    requires forall k :: 0 <= k < |s| ==> !IsSpace(s[k])
    requires forall k :: 0 <= k < |s| && k != at ==> s[k] != '@'
    ensures AllPlain(s[lo..hi])
  {
    var part := s[lo..hi];
    forall k | 0 <= k < |part| ensures Plain(part[k]) {
      assert part[k] == s[lo + k];
    }
  }

  lemma ShapeIsOk(s: string)
    requires EmailShape(s)
    ensures EmailOk(s)
  {
    var i, j :| 0 < i && i + 1 < j < |s| - 1 && s[i] == '@' && s[j] == '.'
               && AllPlain(s[..i]) && AllPlain(s[i + 1..j]) && AllPlain(s[j + 1..]);
    forall k | 0 <= k < |s| && k != i ensures Plain(s[k]) {
      if k < i {
        assert s[k] == s[..i][k];
      } else if k < j {
        assert s[k] == s[i + 1..j][k - i - 1];
      } else if k > j {
        assert s[k] == s[j + 1..][k - j - 1];
      }
    }
    assert forall k :: 0 <= k < |s| ==> !IsSpace(s[k]);
  }

  /** POST /api/email/add for the signed-in user `me`. */
  function Add(t: Tables, me: int, username: string, email: Option<string>, token: string, now: int): (Tables, Reply) {
    if !Truthy(email) || !EmailOk(email.value) then (t, Failure(400, "Valid email required"))
    else if EmailTaken(t.users, email.value, me) then (t, Failure(409, "Email already in use"))
    else NewVerification(t.(users := SetEmail(t.users, me, email.value)), me, username, email.value, token, now)
  }

  /** POST /api/email/verify */
  function Verify(t: Tables, token: Option<string>, now: int): (Tables, Reply) {
    if !Truthy(token) then (t, Failure(400, "Token required"))
    else if !Live(t.verifyTokens, token.value, now) then (t, Failure(400, "Invalid or expired verification token"))
    else
      var u := t.verifyTokens[token.value].userId;
      var users := if u in t.users then t.users[u := t.users[u].(emailVerified := true)] else t.users;
      (t.(users := users, verifyTokens := WithoutTokensOf(t.verifyTokens, u)), Success(200))
  }

  // ---------------------------------------------------------------------------
  // What the routes promise

  /**
   * An address is stored exactly when it matches the pattern and no other
   * user has it; it is then unverified and the user holds exactly one
   * verification token, the new one. Any refusal changes nothing.
   */
  lemma AddRules(t: Tables, me: int, username: string, email: string, token: string, now: int)
    requires me in t.users
    requires token !in t.verifyTokens || t.verifyTokens[token].userId == me
    ensures var (t', reply) := Add(t, me, username, Some(email), token, now);
            && (reply.Success? <==> EmailShape(email) && !EmailTaken(t.users, email, me))
            && (EmailShape(email) && EmailTaken(t.users, email, me) ==> reply == Failure(409, "Email already in use"))
            && (!reply.Success? ==> t' == t)
            && (reply.Success? ==>
                  && t'.users[me].email == Some(email) && !t'.users[me].emailVerified
                  && TokensOf(t'.verifyTokens, me) == {token}
                  && t'.outbox == t.outbox + [VerificationMail(username, email, token)])
  {
    EmailOkMatchesPattern(email);
    if email != "" && EmailOk(email) && !EmailTaken(t.users, email, me) {
      NewVerificationLeavesOne(t.(users := SetEmail(t.users, me, email)), me, username, email, token, now);
    }
  }

  /**
   * Verification needs a live token; it then marks the token's owner
   * verified and removes all their verification tokens. A missing, unknown
   * or expired token gives 400 and changes nothing.
   */
  lemma VerifyRules(t: Tables, token: Option<string>, now: int)
    ensures var (t', reply) := Verify(t, token, now);
            && (reply.Success? <==> Truthy(token) && Live(t.verifyTokens, token.value, now))
            && (!reply.Success? ==> t' == t && reply.status == 400)
            && (reply.Success? ==>
                  var u := t.verifyTokens[token.value].userId;
                  && (u in t.users ==> t'.users[u].emailVerified)
                  && TokensOf(t'.verifyTokens, u) == {}
                  && t'.resetTokens == t.resetTokens)
  {
  }

  /** A token works once: a second verification with it is refused. */
  lemma VerifyOnce(t: Tables, token: string, now: int)
    requires Live(t.verifyTokens, token, now) && token != ""
    ensures var (t', _) := Verify(t, Some(token), now);
            Verify(t', Some(token), now).1 == Failure(400, "Invalid or expired verification token")
  {
  }

  // ---------------------------------------------------------------------------
  // The routes, statement by statement on the tables

  method HandleAdd(db: AccountsDb, me: int, username: string, email: Option<string>, token: string, now: int)
    returns (reply: Reply)
    modifies db
    ensures var (t, r) := Add(old(db.State()), me, username, email, token, now);
            db.State() == t && reply == r
  {
    if email.None? || email.value == "" || !EmailOk(email.value) {
      return Failure(400, "Valid email required");
    }
    var taken := db.CheckEmailTaken(email.value, me);
    if taken {
      return Failure(409, "Email already in use");
    }
    reply := db.StartVerification(me, username, email.value, token, now);
  }

  method HandleVerify(db: AccountsDb, token: Option<string>, now: int) returns (reply: Reply)
    modifies db
    ensures var (t, r) := Verify(old(db.State()), token, now);
            db.State() == t && reply == r
  {
    if token.None? || token.value == "" {
      return Failure(400, "Token required");
    }
    if token.value !in db.verifyTokens || db.verifyTokens[token.value].expiresAt <= now {
      return Failure(400, "Invalid or expired verification token");
    }
    var u := db.verifyTokens[token.value].userId;
    if u in db.users {
      db.UpdateUser(u, db.users[u].(emailVerified := true));
    }
    db.DeleteVerificationTokensByUser(u);
    reply := Success(200);
  }
}
