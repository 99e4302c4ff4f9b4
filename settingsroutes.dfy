/**
 * The account-settings routes of the signed-in user `me`: avatar upload,
 * password change, address change and the four sound volumes. Resizing the
 * avatar image and writing it to disk is the outcome `processed`; bcrypt is
 * `hash` and `matches`.
 */
module SettingsRoutes {
  import opened Wrappers
  import opened Bytes
  import opened Text
  import opened Accounts
  import Json
  import ImageValidate
  import EmailRoutes

  datatype Answer = Refused(status: int, error: string) | Ok | AvatarSet(avatarUrl: string) | Sound(volumes: Volumes)

  function FromReply(r: Reply): Answer {
    match r
    case Failure(status, error) => Refused(status, error)
    case Success(_) => Ok
  }

  function Min(a: real, b: real): real {
    if a <= b then a else b
  }

  function Max(a: real, b: real): real {
    if a >= b then a else b
  }

  /** `clamp`: a number is held to 0..100, anything else counts as 100. */
  function Clamp(v: Json.Json): (r: real)
    ensures 0.0 <= r <= 100.0
    ensures !v.Num? ==> r == 100.0
    ensures v.Num? && 0.0 <= v.n <= 100.0 ==> r == v.n
    ensures v.Num? && v.n < 0.0 ==> r == 0.0
    ensures v.Num? && v.n > 100.0 ==> r == 100.0
  {
    Max(0.0, Min(100.0, if v.Num? then v.n else 100.0))
  }

  /** Clamping a clamped volume changes nothing, and clamping keeps the order of numbers. */
  lemma ClampStable(v: Json.Json, a: real, b: real)
    ensures Clamp(Json.Num(Clamp(v))) == Clamp(v)
    ensures a <= b ==> Clamp(Json.Num(a)) <= Clamp(Json.Num(b))
  {
  }

  const DEFAULT_VOLUMES := Volumes(100.0, 100.0, 100.0, 100.0)

  /** GET /api/settings/sound */
  function GetSound(t: Tables, me: int): Volumes {
    if me in t.sound then t.sound[me] else DEFAULT_VOLUMES
  }

  /** PUT /api/settings/sound */
  function PutSound(t: Tables, me: int, input: Json.Json, send: Json.Json, notification: Json.Json, master: Json.Json): Tables {
    t.(sound := t.sound[me := Volumes(Clamp(input), Clamp(send), Clamp(notification), Clamp(master))])
  }

  predicate InRange(v: Volumes) {
    && 0.0 <= v.input <= 100.0 && 0.0 <= v.send <= 100.0
    && 0.0 <= v.notification <= 100.0 && 0.0 <= v.master <= 100.0
  }

  /** Every stored row has its volumes in 0..100. */
  ghost predicate SoundValid(t: Tables) {
    forall u :: u in t.sound ==> InRange(t.sound[u])
  }

  /**
   * Reading the volumes back gives what was stored, clamped; a user without
   * a row reads the defaults; and while every row came through the route,
   * every read is within 0..100.
   */
  lemma SoundRoundTrip(t: Tables, me: int, other: int, input: Json.Json, send: Json.Json, notification: Json.Json, master: Json.Json)
    ensures GetSound(PutSound(t, me, input, send, notification, master), me)
         == Volumes(Clamp(input), Clamp(send), Clamp(notification), Clamp(master))
    ensures other != me ==> GetSound(PutSound(t, me, input, send, notification, master), other) == GetSound(t, other)
    ensures me !in t.sound ==> GetSound(t, me) == Volumes(100.0, 100.0, 100.0, 100.0)
    ensures SoundValid(t) ==> SoundValid(PutSound(t, me, input, send, notification, master)) && InRange(GetSound(t, other))
  {
  }

  /** PUT /api/settings/avatar; `file` is the uploaded buffer, `processed` whether resizing and saving it worked. */
  function Avatar(t: Tables, me: nat, file: Option<seq<byte>>, processed: bool): (Tables, Answer)
    requires me in t.users
  {
    if !t.users[me].emailVerified then (t, Refused(403, "Email must be verified to upload an avatar"))
    else if file.None? then (t, Refused(400, "No file uploaded"))
    else if !ImageValidate.ValidateImage(file).valid then (t, Refused(400, "Invalid image file. Supported: PNG, JPG, GIF, WebP"))
    else if !processed then (t, Refused(500, "Failed to process avatar"))
    else
      var url := "/uploads/avatars/" + DecimalString(me) + ".png";
      (t.(users := t.users[me := t.users[me].(avatarUrl := Some(url))]), AvatarSet(url))
  }

  /** PUT /api/settings/password */
  function ChangePassword(t: Tables, me: int, current: Option<string>, newPassword: Option<string>,
                          matches: (string, string) -> bool, hash: string -> string): (Tables, Answer)
    requires me in t.users
  {
    if !Truthy(current) || !Truthy(newPassword) then (t, Refused(400, "Current and new password are required"))
    else if !PasswordLengthOk(newPassword.value) then (t, Refused(400, "New password must be 8-128 characters"))
    else if !matches(current.value, t.users[me].passwordHash) then (t, Refused(403, "Current password is incorrect"))
    else (t.(users := t.users[me := t.users[me].(passwordHash := hash(newPassword.value))]), Ok)
  }

  /** PUT /api/settings/email: only the presence of the address is checked, not its form. */
  function UpdateEmail(t: Tables, me: int, username: string, email: Option<string>, token: string, now: int): (Tables, Answer) {
    if !Truthy(email) then (t, Refused(400, "Email is required"))
    else if EmailTaken(t.users, email.value, me) then (t, Refused(409, "Email already in use"))
    else
      var (t', reply) := NewVerification(t.(users := SetEmail(t.users, me, email.value)), me, username, email.value, token, now);
      (t', FromReply(reply))
  }

  // ---------------------------------------------------------------------------
  // What the routes promise

  /**
   * An avatar is stored only for a verified address, an uploaded file that
   * passes the image check, and a successful resize; the URL is the user's
   * id with `.png`. Every refusal changes nothing.
   */
  lemma AvatarGate(t: Tables, me: nat, file: Option<seq<byte>>, processed: bool)
    requires me in t.users
    ensures var (t', a) := Avatar(t, me, file, processed);
            && (a.AvatarSet? <==> t.users[me].emailVerified && file.Some? && ImageValidate.ValidateImage(file).valid && processed)
            && (!t.users[me].emailVerified ==> a.Refused? && a.status == 403)
            && (!a.AvatarSet? ==> t' == t)
            && (a.AvatarSet? ==>
                  t'.users[me].avatarUrl == Some("/uploads/avatars/" + DecimalString(me) + ".png")
                  && t'.users[me].passwordHash == t.users[me].passwordHash)
  {
  }

  /**
   * A password changes only when both fields are given, the new one has 8 to
   * 128 characters and the current one matches; 400, 400 and 403 otherwise,
   * and a refusal changes nothing.
   */
  lemma PasswordChangeRules(t: Tables, me: int, current: Option<string>, newPassword: Option<string>,
                            matches: (string, string) -> bool, hash: string -> string)
    requires me in t.users
    ensures var (t', a) := ChangePassword(t, me, current, newPassword, matches, hash);
            && (a == Ok <==> Truthy(current) && Truthy(newPassword) && PasswordLengthOk(newPassword.value) && matches(current.value, t.users[me].passwordHash))
            && (!(Truthy(current) && Truthy(newPassword)) ==> a == Refused(400, "Current and new password are required"))
            && (Truthy(current) && Truthy(newPassword) && PasswordLengthOk(newPassword.value) && !matches(current.value, t.users[me].passwordHash) ==>
                  a == Refused(403, "Current password is incorrect"))
            && (a != Ok ==> t' == t)
            && (a == Ok ==> t'.users == t.users[me := t.users[me].(passwordHash := hash(newPassword.value))])
  {
  }

  /** An address another user has gives 409 and nothing is stored. */
  lemma UpdateEmailTaken(t: Tables, me: int, username: string, email: string, token: string, now: int)
    requires email != "" && EmailTaken(t.users, email, me)
    ensures UpdateEmail(t, me, username, Some(email), token, now) == (t, Refused(409, "Email already in use"))
  {
  }

  /** Unlike the email route, the settings route stores an address the email pattern refuses. */
  lemma UpdateEmailSkipsPattern(t: Tables, me: int, username: string, token: string, now: int)
    requires me in t.users && !EmailTaken(t.users, "nobody", me) && token !in t.verifyTokens
    ensures !EmailRoutes.EmailShape("nobody")
    ensures UpdateEmail(t, me, username, Some("nobody"), token, now).1 == Ok
    ensures UpdateEmail(t, me, username, Some("nobody"), token, now).0.users[me].email == Some("nobody")
  {
    EmailRoutes.EmailOkMatchesPattern("nobody");
    assert !EmailRoutes.EmailOk("nobody");
  }

  // ---------------------------------------------------------------------------
  // The routes, statement by statement on the tables

  method HandleAvatar(db: AccountsDb, me: nat, file: Option<seq<byte>>, processed: bool) returns (answer: Answer)
    requires me in db.users
    modifies db
    ensures var (t, a) := Avatar(old(db.State()), me, file, processed);
            db.State() == t && answer == a
  {
    if !db.users[me].emailVerified {
      return Refused(403, "Email must be verified to upload an avatar");
    }
    if file.None? {
      return Refused(400, "No file uploaded");
    }
    var verdict := ImageValidate.ValidateImage(file);
    if !verdict.valid {
      return Refused(400, "Invalid image file. Supported: PNG, JPG, GIF, WebP");
    }
    if !processed {
      return Refused(500, "Failed to process avatar");
    }
    var avatarUrl := "/uploads/avatars/" + DecimalString(me) + ".png";
    db.UpdateUser(me, db.users[me].(avatarUrl := Some(avatarUrl)));
    answer := AvatarSet(avatarUrl);
  }

  method HandlePassword(db: AccountsDb, me: int, current: Option<string>, newPassword: Option<string>,
                        matches: (string, string) -> bool, hash: string -> string) returns (answer: Answer)
    requires me in db.users
    modifies db
    ensures var (t, a) := ChangePassword(old(db.State()), me, current, newPassword, matches, hash);
            db.State() == t && answer == a
  {
    if current.None? || current.value == "" || newPassword.None? || newPassword.value == "" {
      return Refused(400, "Current and new password are required");
    }
    if |newPassword.value| < 8 || |newPassword.value| > 128 {
      return Refused(400, "New password must be 8-128 characters");
    }
    var user := db.users[me];
    if !matches(current.value, user.passwordHash) {
      return Refused(403, "Current password is incorrect");
    }
    var passwordHash := hash(newPassword.value);
    db.UpdateUser(me, user.(passwordHash := passwordHash));
    answer := Ok;
  }

  method HandleEmail(db: AccountsDb, me: int, username: string, email: Option<string>, token: string, now: int)
    returns (answer: Answer)
    modifies db
    ensures var (t, a) := UpdateEmail(old(db.State()), me, username, email, token, now);
            db.State() == t && answer == a
  {
    if email.None? || email.value == "" {
      return Refused(400, "Email is required");
    }
    var taken := db.CheckEmailTaken(email.value, me);
    if taken {
      return Refused(409, "Email already in use");
    }
    var reply := db.StartVerification(me, username, email.value, token, now);
    answer := FromReply(reply);
  }

  method HandlePutSound(db: AccountsDb, me: int, input: Json.Json, send: Json.Json, notification: Json.Json, master: Json.Json)
    returns (answer: Answer)
    modifies db
    ensures db.State() == PutSound(old(db.State()), me, input, send, notification, master) && answer == Ok
  {
    db.UpsertUserSettings(me, Volumes(Clamp(input), Clamp(send), Clamp(notification), Clamp(master)));
    answer := Ok;
  }

  method HandleGetSound(db: AccountsDb, me: int) returns (answer: Answer)
    ensures answer == Sound(GetSound(db.State(), me))
  {
    if me !in db.sound {
      return Sound(DEFAULT_VOLUMES);
    }
    answer := Sound(db.sound[me]);
  }
}
