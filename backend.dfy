/** The decisions the backend's request handlers make (lol-coach-backend/app.py,
    lines 246-643), as pure functions from the tables before a request to the
    tables after it and the reply. The Database class in database.dfy performs
    the same steps on objects updated in place. */
module Backend {
  import opened Common
  import opened Text
  import opened Validation
  import opened Accounts

  // ---------------------------------------------------------------------
  // Tables

  /** A `discord_guild` row. */
  datatype DiscordGuild = DiscordGuild(
    id: int,
    guildId: string,
    ownerUserId: int,
    isActive: bool,
    registeredAt: Time)

  /** The single `payment_config` row (without `updated_at`). */
  datatype PaymentSettings = PaymentSettings(
    stripeSecretKeyEncrypted: Option<string>,
    stripePublishableKey: Option<string>,
    paypalClientId: Option<string>,
    paypalSecretEncrypted: Option<string>,
    webhookSecret: Option<string>)

  /** `PaymentConfig()` with every column NULL. */
  const EmptyPaymentSettings := PaymentSettings(None, None, None, None, None)

  /** The uniqueness the `user` table declares (primary key, `unique=True`
      on username, email and discord_id), with ids positive as SQLite
      hands them out. */
  ghost predicate UniqueUsers(rows: seq<UserRow>)
  {
    && (forall i :: 0 <= i < |rows| ==> rows[i].id > 0)
    && (forall i, j :: 0 <= i < j < |rows| ==> rows[i].id != rows[j].id)
    && (forall i, j :: 0 <= i < j < |rows| ==> rows[i].username != rows[j].username)
    && (forall i, j :: 0 <= i < j < |rows| ==> rows[i].email != rows[j].email)
    && (forall i, j :: 0 <= i < |rows| && 0 <= j < |rows| && i != j && rows[i].discordId.Some? ==>
          rows[i].discordId != rows[j].discordId)
  }

  /** The uniqueness the `discord_guild` table declares. */
  ghost predicate UniqueGuilds(guilds: seq<DiscordGuild>)
  {
    && (forall i :: 0 <= i < |guilds| ==> guilds[i].id > 0)
    && (forall i, j :: 0 <= i < j < |guilds| ==> guilds[i].id != guilds[j].id)
    && (forall i, j :: 0 <= i < j < |guilds| ==> guilds[i].guildId != guilds[j].guildId)
  }

  function NextUserId(rows: seq<UserRow>): (id: int)
    ensures id > 0 && forall i :: 0 <= i < |rows| ==> rows[i].id != id
  {
    MaxKey(rows, (u: UserRow) => u.id) + 1
  }

  function NextGuildId(guilds: seq<DiscordGuild>): (id: int)
    ensures id > 0 && forall i :: 0 <= i < |guilds| ==> guilds[i].id != id
  {
    MaxKey(guilds, (g: DiscordGuild) => g.id) + 1
  }

  // ---------------------------------------------------------------------
  // Queries: `.filter_by(...).first()` and `.get(id)`

  function UserById(rows: seq<UserRow>, id: int): (k: Option<nat>)
    ensures k.Some? ==> k.value < |rows| && rows[k.value].id == id
    ensures k.None? <==> forall i :: 0 <= i < |rows| ==> rows[i].id != id
  {
    FindFirst(rows, (u: UserRow) => u.id == id)
  }

  function UserByUsername(rows: seq<UserRow>, name: string): (k: Option<nat>)
    ensures k.Some? ==> k.value < |rows| && rows[k.value].username == name
    ensures k.None? <==> forall i :: 0 <= i < |rows| ==> rows[i].username != name
  {
    FindFirst(rows, (u: UserRow) => u.username == name)
  }

  function UserByEmail(rows: seq<UserRow>, email: string): (k: Option<nat>)
    ensures k.Some? ==> k.value < |rows| && rows[k.value].email == email
    ensures k.None? <==> forall i :: 0 <= i < |rows| ==> rows[i].email != email
  {
    FindFirst(rows, (u: UserRow) => u.email == email)
  }

  function UserByDiscordId(rows: seq<UserRow>, discordId: string): (k: Option<nat>)
    ensures k.Some? ==> k.value < |rows| && rows[k.value].discordId == Some(discordId)
    ensures k.None? <==> forall i :: 0 <= i < |rows| ==> rows[i].discordId != Some(discordId)
  {
    FindFirst(rows, (u: UserRow) => u.discordId == Some(discordId))
  }

  /** Under the table's invariant each query finds the one matching row. */
  lemma {:induction false} UniqueLookups(rows: seq<UserRow>, k: nat)
    requires UniqueUsers(rows) && k < |rows|
    ensures UserById(rows, rows[k].id) == Some(k)
    ensures UserByUsername(rows, rows[k].username) == Some(k)
    ensures UserByEmail(rows, rows[k].email) == Some(k)
    ensures rows[k].discordId.Some? ==> UserByDiscordId(rows, rows[k].discordId.value) == Some(k)
  {
    var a := UserById(rows, rows[k].id);
    assert a.Some? && !(a.value < k) && !(k < a.value);
    var b := UserByUsername(rows, rows[k].username);
    assert b.Some? && !(b.value < k) && !(k < b.value);
    var c := UserByEmail(rows, rows[k].email);
    assert c.Some? && !(c.value < k) && !(k < c.value);
    if rows[k].discordId.Some? {
      var d := UserByDiscordId(rows, rows[k].discordId.value);
      assert d.Some? && d.value == k;
    }
  }

  /** Two tables that agree on every key column satisfy the invariant together. */
  lemma {:induction false} SameKeysUnique(rows: seq<UserRow>, rows': seq<UserRow>)
    requires UniqueUsers(rows) && |rows'| == |rows|
    requires forall i :: 0 <= i < |rows| ==>
      && rows'[i].id == rows[i].id && rows'[i].username == rows[i].username
      && rows'[i].email == rows[i].email && rows'[i].discordId == rows[i].discordId
    ensures UniqueUsers(rows')
  {
  }

  // ---------------------------------------------------------------------
  // register (app.py:309-360)

  datatype RegisterReply =
    | ShortUsername
    | InvalidEmail
    | WeakPassword(verdict: PasswordVerdict)
    | UsernameTaken
    | EmailTaken
    | Registered(id: int)
  {
    function Status(): int
    {
      if Registered? then 201 else 400
    }
  }

  /** `register` on the `user` table: username and e-mail are sanitised,
      the password is used as sent. The salted hash and the verification
      token are random, so they come in as `passwordHash` and `token`. */
  function Register(rows: seq<UserRow>, username: string, email: string, password: string,
                    passwordHash: string, token: string, now: Time): (seq<UserRow>, RegisterReply)
  {
    AddUser(rows, Sanitize(username), Sanitize(email), password, passwordHash, token, now)
  }

  /** The decisions of `register` on the sanitised `name` and `mail`. */
  function AddUser(rows: seq<UserRow>, name: string, mail: string, password: string,
                   passwordHash: string, token: string, now: Time): (seq<UserRow>, RegisterReply)
  {
    match RegisterRefusal(rows, name, mail, password)
    case Some(refusal) => (rows, refusal)
    case None =>
      var id := NextUserId(rows);
      (rows + [NewUserRow(id, name, mail, passwordHash, token, now)], Registered(id))
  }

  /** The first of `register`'s checks that fails, if any. */
  function RegisterRefusal(rows: seq<UserRow>, name: string, mail: string, password: string): Option<RegisterReply>
  {
    if |name| < 3 then Some(ShortUsername)
    else if !ValidEmail(mail) then Some(InvalidEmail)
    else if CheckPasswordStrength(password) != Strong then Some(WeakPassword(CheckPasswordStrength(password)))
    else if UserByUsername(rows, name).Some? then Some(UsernameTaken)
    else if UserByEmail(rows, mail).Some? then Some(EmailTaken)
    else None
  }

  /** Each reply of `register` in terms of the checks, in the order the
      handler makes them; a new row, with a fresh positive id, is appended
      only on success. */
  lemma {:induction false} AddUserDecisions(rows: seq<UserRow>, name: string, mail: string, password: string,
                         passwordHash: string, token: string, now: Time)
    ensures var out := AddUser(rows, name, mail, password, passwordHash, token, now);
      var r := out.1;
      && (r == ShortUsername <==> |name| < 3)
      && (r == InvalidEmail <==> |name| >= 3 && !ValidEmail(mail))
      && (r.WeakPassword? <==> |name| >= 3 && ValidEmail(mail) && CheckPasswordStrength(password) != Strong)
      && (r.WeakPassword? ==> r.verdict == CheckPasswordStrength(password))
      && (r == UsernameTaken <==>
            && |name| >= 3 && ValidEmail(mail) && CheckPasswordStrength(password) == Strong
            && exists i :: 0 <= i < |rows| && rows[i].username == name)
      && (r == EmailTaken <==>
            && |name| >= 3 && ValidEmail(mail) && CheckPasswordStrength(password) == Strong
            && (forall i :: 0 <= i < |rows| ==> rows[i].username != name)
            && exists i :: 0 <= i < |rows| && rows[i].email == mail)
      && (r.Registered? <==>
            && |name| >= 3 && ValidEmail(mail) && CheckPasswordStrength(password) == Strong
            && forall i :: 0 <= i < |rows| ==> rows[i].username != name && rows[i].email != mail)
    ensures var out := AddUser(rows, name, mail, password, passwordHash, token, now);
      out.1.Registered? ==>
      && (forall i :: 0 <= i < |rows| ==> rows[i].id != out.1.id) && out.1.id > 0
      && out.0 == rows + [NewUserRow(out.1.id, name, mail, passwordHash, token, now)]
    ensures var out := AddUser(rows, name, mail, password, passwordHash, token, now);
      !out.1.Registered? ==> out.0 == rows
  {
    var v := CheckPasswordStrength(password);
    if |name| < 3 || !ValidEmail(mail) || v != Strong {
    } else if UserByUsername(rows, name).Some? {
      var k := UserByUsername(rows, name).value;
      assert rows[k].username == name;
    } else if UserByEmail(rows, mail).Some? {
      var k := UserByEmail(rows, mail).value;
      assert rows[k].email == mail;
    } else {
      assert RegisterRefusal(rows, name, mail, password) == None;
    }
  }

  /** Registration keeps ids, usernames, e-mails and Discord ids unique. */
  lemma {:induction false} AddUserKeepsUnique(rows: seq<UserRow>, name: string, mail: string, password: string,
                           passwordHash: string, token: string, now: Time)
    requires UniqueUsers(rows)
    ensures UniqueUsers(AddUser(rows, name, mail, password, passwordHash, token, now).0)
  {
    var out := AddUser(rows, name, mail, password, passwordHash, token, now);
    AddUserDecisions(rows, name, mail, password, passwordHash, token, now);
    if out.1.Registered? {
      var rows' := out.0;
      var n := |rows|;
      assert rows'[n].discordId == None;
      forall i, j | 0 <= i < j < |rows'|
        ensures rows'[i].id != rows'[j].id && rows'[i].username != rows'[j].username
        ensures rows'[i].email != rows'[j].email
      {
        if j == n {
          assert rows'[i] == rows[i];
        }
      }
    }
  }

  /** A registered address matches the pattern in full (sanitising has
      removed any trailing newline), so its masked form in the reply exists
      and shows the whole domain. */
  lemma {:induction false} RegisteredEmailIsMaskable(rows: seq<UserRow>, name: string, email: string, password: string,
                                  passwordHash: string, token: string, now: Time)
    requires AddUser(rows, name, Sanitize(email), password, passwordHash, token, now).1.Registered?
    ensures MaskableEmail(Sanitize(email))
  {
    RegisteredPassedChecks(rows, name, Sanitize(email), password, passwordHash, token, now);
    SanitizedEmailIsMaskable(email);
  }

  /** The pattern matches all of `mail`, and its masked form keeps the
      first three characters and everything after its single '@'. */
  ghost predicate MaskableEmail(mail: string)
  {
    && MatchesEmailPattern(mail)
    && exists a :: 0 < a < |mail| && mail[a] == '@' && MaskEmail(mail) == Some(mail[..Min(3, |mail|)] + "***@" + mail[a + 1..])
  }

  /** A registration succeeds only when every check passes. */
  lemma {:induction false} RegisteredPassedChecks(rows: seq<UserRow>, name: string, mail: string, password: string,
                               passwordHash: string, token: string, now: Time)
    requires AddUser(rows, name, mail, password, passwordHash, token, now).1.Registered?
    ensures |name| >= 3 && ValidEmail(mail) && CheckPasswordStrength(password) == Strong
  {
    assert RegisterRefusal(rows, name, mail, password).None?;
  }

  /** A sanitised address that is accepted is maskable. */
  lemma {:induction false} SanitizedEmailIsMaskable(email: string)
    requires ValidEmail(Sanitize(email))
    ensures MaskableEmail(Sanitize(email))
  {
    SanitizedEndsClean(email);
    CleanEmailIsMaskable(Sanitize(email));
  }

  /** Sanitised text never ends in whitespace, in particular not in a newline. */
  lemma {:induction false} SanitizedEndsClean(text: string)
    ensures var r := Sanitize(text); r != [] ==> !IsSpace(r[|r| - 1])
  {
  }

  /** An accepted address without trailing whitespace matches the pattern
      in full and has a single '@'. */
  lemma {:induction false} CleanEmailIsMaskable(mail: string)
    requires ValidEmail(mail) && (mail != [] ==> !IsSpace(mail[|mail| - 1]))
    ensures MaskableEmail(mail)
  {
    assert IsSpace('\n');
    assert !(|mail| > 0 && mail[|mail| - 1] == '\n');
    assert EmailBody(mail);
    EmailBodyIsPattern(mail);
    ValidEmailHasOneAt(mail);
    var a :| 0 < a < |mail| && mail[a] == '@' && '@' !in mail[..a] && '@' !in mail[a + 1..];
    MaskOfValidEmail(mail, a);
  }

  // ---------------------------------------------------------------------
  // login (app.py:364-406)

  datatype LoginReply =
    | UnknownUser
    | AccountLocked
    | WrongPassword
    | AccountInactive
    | LoggedIn(id: int)
  {
    function Status(): int
    {
      match this
      case UnknownUser => 401
      case AccountLocked => 403
      case WrongPassword => 401
      case AccountInactive => 403
      case LoggedIn(_) => 200
    }
  }

  /** `login`: the username is sanitised, the password is used as sent.
      `checkPassword(hash, password)` stands for werkzeug's
      `check_password_hash`. */
  function Login(rows: seq<UserRow>, username: string, password: string,
                 checkPassword: (string, string) -> bool, now: Time): (seq<UserRow>, LoginReply)
  {
    LoginAs(rows, Sanitize(username), password, checkPassword, now)
  }

  /** The decisions of `login` for the sanitised `name`. */
  function LoginAs(rows: seq<UserRow>, name: string, password: string,
                   checkPassword: (string, string) -> bool, now: Time): (seq<UserRow>, LoginReply)
  {
    match UserByUsername(rows, name)
    case None => (rows, UnknownUser)
    case Some(k) =>
      var u := rows[k];
      if Locked(u, now) then (rows, AccountLocked)
      else if !checkPassword(u.passwordHash, password) then (rows[k := AfterFailedLogin(u, now)], WrongPassword)
      else if !u.isActive then (rows, AccountInactive)
      else (rows[k := AfterLoginReset(u, now)], LoggedIn(u.id))
  }

  /** An unknown name is reported as such; only a wrong password or a
      success writes to the table, and never to a key, the password hash or
      the active flag. */
  lemma {:induction false} LoginKeepsKeys(rows: seq<UserRow>, name: string, password: string,
                                          checkPassword: (string, string) -> bool, now: Time)
    ensures var out := LoginAs(rows, name, password, checkPassword, now);
      && |out.0| == |rows|
      && (out.1 == UnknownUser <==> forall i :: 0 <= i < |rows| ==> rows[i].username != name)
      && (!out.1.WrongPassword? && !out.1.LoggedIn? ==> out.0 == rows)
      && forall i :: 0 <= i < |rows| ==>
           && out.0[i].id == rows[i].id && out.0[i].username == rows[i].username
           && out.0[i].email == rows[i].email && out.0[i].discordId == rows[i].discordId
           && out.0[i].passwordHash == rows[i].passwordHash && out.0[i].isActive == rows[i].isActive
  {
    var found := UserByUsername(rows, name);
    if found.Some? {
      var k := found.value;
      assert rows[k].username == name;
    }
  }

  /** The order in which `login` decides, for the user the name belongs to:
      a lock refuses before the password is looked at and leaves the counter
      alone; a wrong password counts a failure even on an inactive account;
      a right password on an inactive account resets nothing; only full
      success resets the counter. */
  lemma {:induction false} LoginDecisionOrder(rows: seq<UserRow>, name: string, password: string,
                           checkPassword: (string, string) -> bool, now: Time, k: nat)
    requires UniqueUsers(rows) && k < |rows| && rows[k].username == name
    ensures var out, u := LoginAs(rows, name, password, checkPassword, now), rows[k];
      var r, good := out.1, checkPassword(u.passwordHash, password);
      && (r == AccountLocked <==> Locked(u, now))
      && (r == WrongPassword <==> !Locked(u, now) && !good)
      && (r == AccountInactive <==> !Locked(u, now) && good && !u.isActive)
      && (r.LoggedIn? <==> !Locked(u, now) && good && u.isActive)
      && (r == WrongPassword ==> out.0 == rows[k := AfterFailedLogin(u, now)])
      && (r.LoggedIn? ==> r.id == u.id && out.0 == rows[k := AfterLoginReset(u, now)])
  {
    UniqueLookups(rows, k);
  }

  /** One login attempt: the password typed and the moment it arrives. */
  datatype Attempt = Attempt(password: string, at: Time)

  /** A sequence of logins under one sanitised username, each on the tables the
      previous one left. */
  function LoginRun(rows: seq<UserRow>, name: string, attempts: seq<Attempt>,
                    checkPassword: (string, string) -> bool): (out: (seq<UserRow>, seq<LoginReply>))
    ensures |out.1| == |attempts|
    decreases |attempts|
  {
    if attempts == [] then (rows, [])
    else
      var first := LoginAs(rows, name, attempts[0].password, checkPassword, attempts[0].at);
      var rest := LoginRun(first.0, name, attempts[1..], checkPassword);
      (rest.0, [first.1] + rest.1)
  }

  /** The row after `increment_failed_login` has run once per attempt. */
  function FailAll(u: UserRow, attempts: seq<Attempt>): UserRow
    decreases |attempts|
  {
    if attempts == [] then u else FailAll(AfterFailedLogin(u, attempts[0].at), attempts[1..])
  }

  /** Up to five failures on an unlocked row: the counter goes up by one per
      failure, and the lock appears with the fifth, thirty minutes after it;
      identity and password are untouched. */
  lemma {:induction false} FailAllCounts(u: UserRow, attempts: seq<Attempt>)
    requires u.lockedUntil == None && u.failedLoginAttempts + |attempts| <= MAX_FAILED_ATTEMPTS
    ensures var v := FailAll(u, attempts);
      && v.failedLoginAttempts == u.failedLoginAttempts + |attempts|
      && v.id == u.id && v.username == u.username && v.email == u.email
      && v.passwordHash == u.passwordHash && v.discordId == u.discordId && v.isActive == u.isActive
      && (v.failedLoginAttempts < MAX_FAILED_ATTEMPTS ==> v.lockedUntil == None)
      && (|attempts| > 0 && v.failedLoginAttempts == MAX_FAILED_ATTEMPTS ==>
            v.lockedUntil == Some(attempts[|attempts| - 1].at + LOCK_SECONDS))
    decreases |attempts|
  {
    if attempts != [] {
      var w := AfterFailedLogin(u, attempts[0].at);
      var rest := attempts[1..];
      if rest != [] {
        assert w.lockedUntil == None;
        FailAllCounts(w, rest);
        assert rest[|rest| - 1] == attempts[|attempts| - 1];
      }
    }
  }

  /** Wrong passwords against an unlocked account are refused one by one,
      and the row is the one `FailAll` describes. */
  lemma {:induction false} RunOfFailures(rows: seq<UserRow>, name: string, attempts: seq<Attempt>,
                                         checkPassword: (string, string) -> bool, k: nat)
    requires UniqueUsers(rows) && k < |rows| && rows[k].username == name
    requires rows[k].lockedUntil == None
    requires rows[k].failedLoginAttempts + |attempts| <= MAX_FAILED_ATTEMPTS
    requires forall i :: 0 <= i < |attempts| ==> !checkPassword(rows[k].passwordHash, attempts[i].password)
    ensures var out := LoginRun(rows, name, attempts, checkPassword);
      && out.0 == rows[k := FailAll(rows[k], attempts)]
      && forall i :: 0 <= i < |attempts| ==> out.1[i] == WrongPassword
    decreases |attempts|
  {
    if attempts != [] {
      var a := attempts[0];
      WrongPasswordStep(rows, name, a, checkPassword, k);
      var u := AfterFailedLogin(rows[k], a.at);
      var first := LoginAs(rows, name, a.password, checkPassword, a.at);
      var rest := attempts[1..];
      var later := LoginRun(first.0, name, rest, checkPassword);
      var out := LoginRun(rows, name, attempts, checkPassword);
      assert out == (later.0, [first.1] + later.1);
      if rest == [] {
        assert later == (first.0, []);
      } else {
        assert u.lockedUntil == None && u.passwordHash == rows[k].passwordHash;
        forall i | 0 <= i < |rest| ensures !checkPassword(u.passwordHash, rest[i].password) {
          assert rest[i] == attempts[i + 1];
        }
        RunOfFailures(first.0, name, rest, checkPassword, k);
        assert rows[k := u][k := FailAll(u, rest)] == rows[k := FailAll(u, rest)];
        forall i | 1 <= i < |attempts| ensures out.1[i] == WrongPassword {
          assert out.1[i] == later.1[i - 1];
        }
      }
    }
  }

  /** Failed attempts against an account that carries no lock are counted
      one by one and refused as wrong passwords; the failure that brings the
      counter to five locks the account for thirty minutes from that moment. */
  lemma {:induction false} FailuresAreCounted(rows: seq<UserRow>, name: string, attempts: seq<Attempt>,
                                              checkPassword: (string, string) -> bool, k: nat)
    requires UniqueUsers(rows) && k < |rows| && rows[k].username == name
    requires rows[k].lockedUntil == None
    requires rows[k].failedLoginAttempts + |attempts| <= MAX_FAILED_ATTEMPTS
    requires forall i :: 0 <= i < |attempts| ==> !checkPassword(rows[k].passwordHash, attempts[i].password)
    ensures var out := LoginRun(rows, name, attempts, checkPassword);
      && UniqueUsers(out.0) && |out.0| == |rows|
      && (forall i :: 0 <= i < |attempts| ==> out.1[i] == WrongPassword)
      && out.0[k].failedLoginAttempts == rows[k].failedLoginAttempts + |attempts|
      && out.0[k].passwordHash == rows[k].passwordHash && out.0[k].username == rows[k].username
      && (out.0[k].failedLoginAttempts < MAX_FAILED_ATTEMPTS ==> out.0[k].lockedUntil == None)
      && (|attempts| > 0 && out.0[k].failedLoginAttempts == MAX_FAILED_ATTEMPTS ==>
            out.0[k].lockedUntil == Some(attempts[|attempts| - 1].at + LOCK_SECONDS))
      && (forall i :: 0 <= i < |rows| && i != k ==> out.0[i] == rows[i])
  {
    RunOfFailures(rows, name, attempts, checkPassword, k);
    FailAllCounts(rows[k], attempts);
    SameKeysUnique(rows, rows[k := FailAll(rows[k], attempts)]);
  }

  /** One wrong password for the user at `k`: refused, counted, and nothing
      else changes. */
  lemma {:induction false} WrongPasswordStep(rows: seq<UserRow>, name: string, a: Attempt,
                          checkPassword: (string, string) -> bool, k: nat)
    requires UniqueUsers(rows) && k < |rows| && rows[k].username == name
    requires !Locked(rows[k], a.at) && !checkPassword(rows[k].passwordHash, a.password)
    ensures var first := LoginAs(rows, name, a.password, checkPassword, a.at);
      && first.1 == WrongPassword
      && first.0 == rows[k := AfterFailedLogin(rows[k], a.at)]
      && UniqueUsers(first.0)
  {
    LoginDecisionOrder(rows, name, a.password, checkPassword, a.at, k);
    SameKeysUnique(rows, rows[k := AfterFailedLogin(rows[k], a.at)]);
  }

  /** Five wrong passwords in a row on a fresh account lock it: for thirty
      minutes after the fifth, every login is refused as locked, whatever
      the password, and the tables stay as they are. */
  lemma {:induction false} FiveFailuresLock(rows: seq<UserRow>, name: string, attempts: seq<Attempt>,
                         checkPassword: (string, string) -> bool, k: nat, next: Attempt)
    requires UniqueUsers(rows) && k < |rows| && rows[k].username == name
    requires rows[k].lockedUntil == None && rows[k].failedLoginAttempts == 0
    requires |attempts| == MAX_FAILED_ATTEMPTS
    requires forall i :: 0 <= i < |attempts| ==> !checkPassword(rows[k].passwordHash, attempts[i].password)
    requires next.at < attempts[MAX_FAILED_ATTEMPTS - 1].at + LOCK_SECONDS
    ensures var run := LoginRun(rows, name, attempts, checkPassword);
      var last := LoginAs(run.0, name, next.password, checkPassword, next.at);
      && (forall i :: 0 <= i < |attempts| ==> run.1[i] == WrongPassword)
      && last.1 == AccountLocked && last.0 == run.0
  {
    FailuresAreCounted(rows, name, attempts, checkPassword, k);
    var run := LoginRun(rows, name, attempts, checkPassword);
    LoginDecisionOrder(run.0, name, next.password, checkPassword, next.at, k);
  }

  // ---------------------------------------------------------------------
  // Tokens: verify_token (app.py:257-265) is a parameter

  /** What `verify_token` makes of a token: its `user_id` and `type` claims
      (`type` defaulting to "access"), or the reason it was rejected. */
  datatype TokenClaims = Claims(userId: int, kind: string) | Expired | Invalid

  /** The claims carry a truthy `user_id`. */
  predicate HasUser(c: TokenClaims)
  {
    c.Claims? && c.userId != 0
  }

  datatype RefreshReply = MissingToken | InvalidToken | UserUnavailable | Refreshed(id: int)
  {
    function Status(): int
    {
      match this
      case MissingToken => 401
      case InvalidToken => 401
      case UserUnavailable => 404
      case Refreshed(_) => 200
    }
  }

  /** `refresh_token`: an absent field is the empty string. */
  function Refresh(rows: seq<UserRow>, token: string, decode: string -> TokenClaims): (r: RefreshReply)
    ensures r == MissingToken <==> token == ""
    ensures r == InvalidToken <==> token != "" && !(HasUser(decode(token)) && decode(token).kind == "refresh")
    ensures r.Refreshed? ==> exists i :: 0 <= i < |rows| && rows[i].id == r.id && rows[i].isActive
    ensures r.Refreshed? ==> r.id == decode(token).userId
  {
    if token == "" then MissingToken
    else
      var c := decode(token);
      if !HasUser(c) || c.kind != "refresh" then InvalidToken
      else match UserById(rows, c.userId)
        case None => UserUnavailable
        case Some(k) => if !rows[k].isActive then UserUnavailable else Refreshed(rows[k].id)
  }

  /** With unique ids, a new access token is issued exactly for a refresh
      token naming an existing, active user. */
  lemma {:induction false} RefreshIff(rows: seq<UserRow>, token: string, decode: string -> TokenClaims)
    requires UniqueUsers(rows)
    ensures Refresh(rows, token, decode).Refreshed? <==>
      && token != "" && HasUser(decode(token)) && decode(token).kind == "refresh"
      && exists i :: 0 <= i < |rows| && rows[i].id == decode(token).userId && rows[i].isActive
  {
    if token != "" && HasUser(decode(token)) {
      var id := decode(token).userId;
      if i :| 0 <= i < |rows| && rows[i].id == id && rows[i].isActive {
        UniqueLookups(rows, i);
      }
    }
  }

  // ---------------------------------------------------------------------
  // require_auth and require_admin (app.py:268-304)

  datatype AuthReply = NoToken | BadToken | UserGone | Authenticated(index: nat)
  {
    function Status(): int
    {
      match this
      case NoToken => 401
      case BadToken => 401
      case UserGone => 404
      case Authenticated(_) => 200
    }
  }

  /** The token in an `Authorization` header, with a leading "Bearer " removed. */
  function BearerToken(header: string): (t: string)
    ensures |header| >= 7 && header[..7] == "Bearer " ==> header == "Bearer " + t
    ensures !(|header| >= 7 && header[..7] == "Bearer ") ==> t == header
  {
    if |header| >= 7 && header[..7] == "Bearer " then header[7..] else header
  }

  /** `require_auth`: the current user is the row `index`. */
  function Authenticate(rows: seq<UserRow>, header: string, decode: string -> TokenClaims): (r: AuthReply)
    ensures r == NoToken <==> header == ""
    ensures r == BadToken <==> header != "" && !HasUser(decode(BearerToken(header)))
    ensures r.Authenticated? ==>
      && r.index < |rows| && rows[r.index].isActive
      && rows[r.index].id == decode(BearerToken(header)).userId
  {
    if header == "" then NoToken
    else
      var c := decode(BearerToken(header));
      if !HasUser(c) then BadToken
      else match UserById(rows, c.userId)
        case None => UserGone
        case Some(k) => if !rows[k].isActive then UserGone else Authenticated(k)
  }

  /** With unique ids, a request is authenticated exactly when its token
      names an existing, active user. The token's `type` claim plays no
      part: a refresh token is accepted here too. */
  lemma {:induction false} AuthenticateIff(rows: seq<UserRow>, header: string, decode: string -> TokenClaims, k: nat)
    requires UniqueUsers(rows) && k < |rows|
    ensures Authenticate(rows, header, decode) == Authenticated(k) <==>
      && header != "" && HasUser(decode(BearerToken(header)))
      && rows[k].id == decode(BearerToken(header)).userId && rows[k].isActive
  {
    UniqueLookups(rows, k);
  }

  datatype AdminReply = NotAuthenticated(auth: AuthReply) | NotAdmin | Admin(index: nat)
  {
    function Status(): int
    {
      match this
      case NotAuthenticated(a) => a.Status()
      case NotAdmin => 403
      case Admin(_) => 200
    }
  }

  /** `require_auth` followed by `require_admin`. */
  function RequireAdmin(rows: seq<UserRow>, header: string, decode: string -> TokenClaims): (r: AdminReply)
    ensures r.Admin? <==>
      (Authenticate(rows, header, decode).Authenticated? && rows[Authenticate(rows, header, decode).index].isAdmin)
    ensures r.Admin? ==> r.index < |rows| && rows[r.index].isAdmin && rows[r.index].isActive
  {
    match Authenticate(rows, header, decode)
    case Authenticated(k) => if rows[k].isAdmin then Admin(k) else NotAdmin
    case other => NotAuthenticated(other)
  }

  // ---------------------------------------------------------------------
  // link_discord (app.py:443-466)

  datatype LinkReply = MissingDiscordId | DiscordIdInUse | Linked
  {
    function Status(): int
    {
      if Linked? then 200 else 400
    }
  }

  /** `link_discord` for the authenticated user at index `me`: the id is
      sanitised, then linked. */
  function LinkDiscord(rows: seq<UserRow>, me: nat, discordId: string): (seq<UserRow>, LinkReply)
    requires me < |rows|
  {
    LinkDiscordId(rows, me, Sanitize(discordId))
  }

  /** The decisions of `link_discord` for the sanitised id `d`. */
  function LinkDiscordId(rows: seq<UserRow>, me: nat, d: string): (seq<UserRow>, LinkReply)
    requires me < |rows|
  {
    if d == "" then (rows, MissingDiscordId)
    else match UserByDiscordId(rows, d)
      case Some(j) =>
        if rows[j].id != rows[me].id then (rows, DiscordIdInUse)
        else (rows[me := rows[me].(discordId := Some(d))], Linked)
      case None => (rows[me := rows[me].(discordId := Some(d))], Linked)
  }

  /** An empty id is refused as missing; a refusal writes nothing; a link
      writes the id to the caller's row alone; an id in use belongs to an
      account with another id. */
  lemma {:induction false} LinkDiscordDecisions(rows: seq<UserRow>, me: nat, d: string)
    requires me < |rows|
    ensures var out := LinkDiscordId(rows, me, d);
      && (out.1 == MissingDiscordId <==> d == "")
      && (out.1 == Linked ==> out.0 == rows[me := rows[me].(discordId := Some(d))])
      && (out.1 != Linked ==> out.0 == rows)
      && (out.1 == DiscordIdInUse ==>
            exists i :: 0 <= i < |rows| && rows[i].discordId == Some(d) && rows[i].id != rows[me].id)
  {
    var found := UserByDiscordId(rows, d);
    if d != "" && found.Some? {
      assert rows[found.value].discordId == Some(d);
    }
  }

  /** Under unique keys, linking is refused for a non-empty id exactly when
      another account holds it. */
  lemma {:induction false} LinkDiscordInUse(rows: seq<UserRow>, me: nat, d: string)
    requires UniqueUsers(rows) && me < |rows|
    ensures LinkDiscordId(rows, me, d).1 == DiscordIdInUse <==>
      d != "" && exists i :: 0 <= i < |rows| && i != me && rows[i].discordId == Some(d)
  {
    var found := UserByDiscordId(rows, d);
    if d != "" && found.Some? {
      var j := found.value;
      assert rows[j].discordId == Some(d);
      if rows[j].id == rows[me].id {
        assert j == me;
        assert forall i :: 0 <= i < |rows| && i != me ==> rows[i].discordId != Some(d);
      }
    }
  }

  /** Afterwards a Discord id still belongs to at most one account. */
  lemma {:induction false} LinkDiscordKeepsUnique(rows: seq<UserRow>, me: nat, d: string)
    requires UniqueUsers(rows) && me < |rows|
    ensures UniqueUsers(LinkDiscordId(rows, me, d).0)
  {
    var out := LinkDiscordId(rows, me, d);
    LinkDiscordDecisions(rows, me, d);
    LinkDiscordInUse(rows, me, d);
    if out.1 == Linked {
      var rows' := rows[me := rows[me].(discordId := Some(d))];
      assert forall i :: 0 <= i < |rows| && i != me ==> rows[i].discordId != Some(d);
      forall i, j | 0 <= i < j < |rows'|
        ensures rows'[i].id != rows'[j].id && rows'[i].username != rows'[j].username
        ensures rows'[i].email != rows'[j].email
      {
        assert rows'[i].id == rows[i].id && rows'[j].id == rows[j].id;
      }
      forall i, j | 0 <= i < |rows'| && 0 <= j < |rows'| && i != j && rows'[i].discordId.Some?
        ensures rows'[i].discordId != rows'[j].discordId
      {
        if i != me && j != me {
          assert rows'[i] == rows[i] && rows'[j] == rows[j];
        }
      }
    }
  }

  // ---------------------------------------------------------------------
  // check_subscription (app.py:471-493)

  datatype SubscriptionReply = MissingGuildId | Active | Inactive
  {
    function Status(): int
    {
      if MissingGuildId? then 400 else 200
    }
  }

  /** The owner's own paid-up condition. */
  predicate PaidUp(u: UserRow, now: Time)
  {
    u.isActive && u.subscriptionStatus == Some("active") &&
    u.subscriptionEndDate.Some? && u.subscriptionEndDate.value > now
  }

  /** Row `g` is an active registration of `guildId` and row `i` its paid-up owner. */
  ghost predicate OwnerPaidUp(rows: seq<UserRow>, guilds: seq<DiscordGuild>, guildId: string, now: Time, g: int, i: int)
  {
    && 0 <= g < |guilds| && 0 <= i < |rows|
    && guilds[g].guildId == guildId && guilds[g].isActive
    && rows[i].id == guilds[g].ownerUserId && PaidUp(rows[i], now)
  }

  function ActiveGuild(guilds: seq<DiscordGuild>, guildId: string): (k: Option<nat>)
    ensures k.Some? ==> k.value < |guilds| && guilds[k.value].guildId == guildId && guilds[k.value].isActive
    ensures k.None? <==> forall i :: 0 <= i < |guilds| ==> !(guilds[i].guildId == guildId && guilds[i].isActive)
  {
    FindFirst(guilds, (g: DiscordGuild) => g.guildId == guildId && g.isActive)
  }

  /** `check_subscription`: the query parameter is used as given. */
  function CheckSubscription(rows: seq<UserRow>, guilds: seq<DiscordGuild>, guildId: string, now: Time)
    : (r: SubscriptionReply)
    ensures r == MissingGuildId <==> guildId == ""
    ensures r == Active ==> exists g, i :: OwnerPaidUp(rows, guilds, guildId, now, g, i)
  {
    if guildId == "" then MissingGuildId
    else match ActiveGuild(guilds, guildId)
      case None => Inactive
      case Some(g) =>
        match UserById(rows, guilds[g].ownerUserId)
        case None => Inactive
        case Some(k) =>
          if PaidUp(rows[k], now) then assert OwnerPaidUp(rows, guilds, guildId, now, g, k); Active
          else Inactive
  }

  /** With unique keys in both tables, a guild is reported active exactly
      when its active row's owner exists, is active, and has an "active"
      subscription ending strictly after now; every other case is inactive. */
  lemma {:induction false} CheckSubscriptionIff(rows: seq<UserRow>, guilds: seq<DiscordGuild>, guildId: string, now: Time)
    requires UniqueUsers(rows) && UniqueGuilds(guilds) && guildId != ""
    ensures CheckSubscription(rows, guilds, guildId, now) == Active <==>
      exists g, i :: OwnerPaidUp(rows, guilds, guildId, now, g, i)
    ensures CheckSubscription(rows, guilds, guildId, now) != Active ==>
      CheckSubscription(rows, guilds, guildId, now) == Inactive
  {
    if g, i :| OwnerPaidUp(rows, guilds, guildId, now, g, i) {
      var h := ActiveGuild(guilds, guildId);
      assert h.Some? && guilds[h.value].guildId == guilds[g].guildId;
      UniqueLookups(rows, i);
    }
  }

  // ---------------------------------------------------------------------
  // register_guild (app.py:497-528)

  datatype GuildReply = IncompleteData | InviterNotFound | GuildAlreadyRegistered | GuildRegistered
  {
    function Status(): int
    {
      match this
      case IncompleteData => 400
      case InviterNotFound => 404
      case GuildAlreadyRegistered => 400
      case GuildRegistered => 200
    }
  }

  /** `register_guild`: both fields are sanitised, then the guild is added. */
  function RegisterGuild(rows: seq<UserRow>, guilds: seq<DiscordGuild>, guildId: string,
                         inviterDiscordId: string, now: Time): (seq<DiscordGuild>, GuildReply)
  {
    AddGuild(rows, guilds, Sanitize(guildId), Sanitize(inviterDiscordId), now)
  }

  /** The decisions of `register_guild` on sanitised fields `g` and `d`: a
      guild id already present, active or not, is refused. */
  function AddGuild(rows: seq<UserRow>, guilds: seq<DiscordGuild>, g: string, d: string, now: Time)
    : (seq<DiscordGuild>, GuildReply)
  {
    if g == "" || d == "" then (guilds, IncompleteData)
    else match UserByDiscordId(rows, d)
      case None => (guilds, InviterNotFound)
      case Some(k) =>
        if FindFirst(guilds, (x: DiscordGuild) => x.guildId == g).Some? then (guilds, GuildAlreadyRegistered)
        else (guilds + [DiscordGuild(NextGuildId(guilds), g, rows[k].id, true, now)], GuildRegistered)
  }

  /** Each reply of `register_guild` in terms of the checks; a new guild,
      with a fresh positive id and owned by the inviter, is appended only on
      success. */
  lemma {:induction false} AddGuildDecisions(rows: seq<UserRow>, guilds: seq<DiscordGuild>, g: string, d: string, now: Time)
    ensures var out := AddGuild(rows, guilds, g, d, now);
      && (out.1 == IncompleteData <==> g == "" || d == "")
      && (out.1 == InviterNotFound <==>
            g != "" && d != "" && forall i :: 0 <= i < |rows| ==> rows[i].discordId != Some(d))
      && (out.1 == GuildAlreadyRegistered <==>
            && g != "" && d != "" && (exists i :: 0 <= i < |rows| && rows[i].discordId == Some(d))
            && exists j :: 0 <= j < |guilds| && guilds[j].guildId == g)
      && (out.1 != GuildRegistered ==> out.0 == guilds)
    ensures var out := AddGuild(rows, guilds, g, d, now);
      out.1 == GuildRegistered ==>
      && |out.0| == |guilds| + 1 && out.0[..|guilds|] == guilds
      && var n := out.0[|guilds|];
      && n.guildId == g && n.isActive && n.registeredAt == now && n.id > 0
      && (forall j :: 0 <= j < |guilds| ==> guilds[j].id != n.id && guilds[j].guildId != n.guildId)
      && exists i :: 0 <= i < |rows| && rows[i].id == n.ownerUserId && rows[i].discordId == Some(d)
  {
    if g != "" && d != "" {
      var inviter := UserByDiscordId(rows, d);
      if inviter.Some? {
        var k := inviter.value;
        assert rows[k].discordId == Some(d);
        var dup := FindFirst(guilds, (x: DiscordGuild) => x.guildId == g);
        if dup.Some? {
          assert guilds[dup.value].guildId == g;
        } else {
          var out := AddGuild(rows, guilds, g, d, now);
          assert out.0 == guilds + [DiscordGuild(NextGuildId(guilds), g, rows[k].id, true, now)];
          assert out.0[..|guilds|] == guilds;
        }
      }
    }
  }

  /** Adding a guild keeps guild ids and row ids unique. */
  lemma {:induction false} AddGuildKeepsUnique(rows: seq<UserRow>, guilds: seq<DiscordGuild>, g: string, d: string, now: Time)
    requires UniqueGuilds(guilds)
    ensures UniqueGuilds(AddGuild(rows, guilds, g, d, now).0)
  {
    var out := AddGuild(rows, guilds, g, d, now);
    AddGuildDecisions(rows, guilds, g, d, now);
    if out.1 == GuildRegistered {
      var gs := out.0;
      var n := |guilds|;
      forall i, j | 0 <= i < j < |gs|
        ensures gs[i].id != gs[j].id && gs[i].guildId != gs[j].guildId
      {
        assert gs[i] == guilds[i];
        if j < n { assert gs[j] == guilds[j]; }
      }
    }
  }

  // ---------------------------------------------------------------------
  // update_user (app.py:542-570)

  /** A request key: absent, or present with its value. */
  datatype Field<T> = Absent | Present(value: T)

  function Or<T>(f: Field<T>, current: T): T
  {
    if f.Present? then f.value else current
  }

  /** The keys `update_user` looks at; the status may be sent as null, the
      end date arrives already parsed. */
  datatype UserUpdate = UserUpdate(
    subscriptionStatus: Field<Option<string>>,
    subscriptionEndDate: Field<Time>,
    isAdmin: Field<bool>,
    isActive: Field<bool>)

  /** The row after the present keys are written. */
  function ApplyUpdate(u: UserRow, upd: UserUpdate): UserRow
  {
    u.(subscriptionStatus := Or(upd.subscriptionStatus, u.subscriptionStatus),
       subscriptionEndDate := if upd.subscriptionEndDate.Present? then Some(upd.subscriptionEndDate.value)
                              else u.subscriptionEndDate,
       isAdmin := Or(upd.isAdmin, u.isAdmin),
       isActive := Or(upd.isActive, u.isActive))
  }

  /** A present key is written, an absent one keeps the stored value, and
      no other column changes. */
  lemma {:induction false} ApplyUpdateWrites(u: UserRow, upd: UserUpdate)
    ensures var v := ApplyUpdate(u, upd);
      && (upd.subscriptionStatus.Present? ==> v.subscriptionStatus == upd.subscriptionStatus.value)
      && (upd.subscriptionEndDate.Present? ==> v.subscriptionEndDate == Some(upd.subscriptionEndDate.value))
      && (upd.isAdmin.Present? ==> v.isAdmin == upd.isAdmin.value)
      && (upd.isActive.Present? ==> v.isActive == upd.isActive.value)
      && (upd.subscriptionStatus.Absent? ==> v.subscriptionStatus == u.subscriptionStatus)
      && (upd.subscriptionEndDate.Absent? ==> v.subscriptionEndDate == u.subscriptionEndDate)
      && (upd.isAdmin.Absent? ==> v.isAdmin == u.isAdmin)
      && (upd.isActive.Absent? ==> v.isActive == u.isActive)
      && v.(subscriptionStatus := u.subscriptionStatus, subscriptionEndDate := u.subscriptionEndDate,
            isAdmin := u.isAdmin, isActive := u.isActive) == u
  {
  }

  /** Writing the same keys twice gives the row writing them once gives. */
  lemma {:induction false} ApplyUpdateTwice(u: UserRow, upd: UserUpdate)
    ensures ApplyUpdate(ApplyUpdate(u, upd), upd) == ApplyUpdate(u, upd)
  {
  }

  datatype UpdateReply = UserNotFound | Updated

  /** `update_user` for the row with id `userId`. */
  function UpdateUser(rows: seq<UserRow>, userId: int, upd: UserUpdate): (out: (seq<UserRow>, UpdateReply))
    ensures out.1 == UserNotFound <==> forall i :: 0 <= i < |rows| ==> rows[i].id != userId
    ensures out.1 == UserNotFound ==> out.0 == rows
    ensures out.1 == Updated ==>
      exists k :: 0 <= k < |rows| && rows[k].id == userId && out.0 == rows[k := ApplyUpdate(rows[k], upd)]
  {
    match UserById(rows, userId)
    case None => (rows, UserNotFound)
    case Some(k) => (rows[k := ApplyUpdate(rows[k], upd)], Updated)
  }

  /** An update leaves the key columns alone, so the table stays unique. */
  lemma {:induction false} UpdateUserKeepsUnique(rows: seq<UserRow>, userId: int, upd: UserUpdate)
    requires UniqueUsers(rows)
    ensures UniqueUsers(UpdateUser(rows, userId, upd).0)
  {
    SameKeysUnique(rows, UpdateUser(rows, userId, upd).0);
  }

  /** Sending the same update again changes nothing more. */
  lemma {:induction false} UpdateUserIdempotent(rows: seq<UserRow>, userId: int, upd: UserUpdate)
    ensures var out := UpdateUser(rows, userId, upd);
      UpdateUser(out.0, userId, upd) == out
  {
    var found := UserById(rows, userId);
    if found.Some? {
      var k := found.value;
      var v := ApplyUpdate(rows[k], upd);
      var rows' := rows[k := v];
      assert UpdateUser(rows, userId, upd) == (rows', Updated);
      var again := UserById(rows', userId);
      assert rows'[k].id == userId;
      assert again.Some?;
      ApplyUpdateTwice(rows[k], upd);
      assert rows'[k := ApplyUpdate(v, upd)] == rows';
    }
  }

  /** Unlike deletion, an update has no last-admin guard: demoting the only
      administrator succeeds and leaves the table without one. */
  lemma {:induction false} UpdateMayRemoveLastAdmin(rows: seq<UserRow>, k: nat, upd: UserUpdate)
    requires UniqueUsers(rows) && k < |rows|
    requires rows[k].isAdmin && CountWhere(rows, IsAdminRow) == 1
    requires upd.isAdmin == Present(false)
    ensures var out := UpdateUser(rows, rows[k].id, upd);
      out.1 == Updated && CountWhere(out.0, IsAdminRow) == 0
  {
    UniqueLookups(rows, k);
    var v := ApplyUpdate(rows[k], upd);
    assert UpdateUser(rows, rows[k].id, upd).0 == rows[k := v];
    CountWhereUpdate(rows, k, v, IsAdminRow);
  }

  // ---------------------------------------------------------------------
  // delete_user (app.py:575-591)

  predicate IsAdminRow(u: UserRow) { u.isAdmin }

  datatype DeleteReply =
    | NotFound
    | LastAdmin
      /** The user owns a guild: removing the user would set the guild's
          non-null `owner_user_id` to NULL, so the commit fails and nothing
          changes. */
    | OwnsGuild
    | Deleted
  {
    function Status(): int
    {
      match this
      case NotFound => 404
      case LastAdmin => 400
      case OwnsGuild => 500
      case Deleted => 200
    }
  }

  /** `delete_user` for the row with id `userId`; `guilds` is the guild table
      whose owner references the commit checks. */
  function DeleteUser(rows: seq<UserRow>, guilds: seq<DiscordGuild>, userId: int)
    : (out: (seq<UserRow>, DeleteReply))
    ensures out.1 == NotFound <==> forall i :: 0 <= i < |rows| ==> rows[i].id != userId
    ensures out.1 != Deleted ==> out.0 == rows
    ensures out.1 == OwnsGuild ==> exists j :: 0 <= j < |guilds| && guilds[j].ownerUserId == userId
    ensures out.1 == Deleted ==>
      && (forall j :: 0 <= j < |guilds| ==> guilds[j].ownerUserId != userId)
      && exists k :: 0 <= k < |rows| && rows[k].id == userId && out.0 == rows[..k] + rows[k + 1..]
  {
    match UserById(rows, userId)
    case None => (rows, NotFound)
    case Some(k) =>
      if rows[k].isAdmin && CountWhere(rows, IsAdminRow) == 1 then (rows, LastAdmin)
      else if FindFirst(guilds, (g: DiscordGuild) => g.ownerUserId == userId).Some? then (rows, OwnsGuild)
      else (rows[..k] + rows[k + 1..], Deleted)
  }

  /** Deletion is refused as the last admin exactly when the target is the
      only admin, fails exactly when the target otherwise owns a guild, and
      removes the target's row in every other case; a table with an
      administrator keeps one. */
  lemma {:induction false} DeleteUserGuard(rows: seq<UserRow>, guilds: seq<DiscordGuild>, userId: int, k: nat)
    requires UniqueUsers(rows) && k < |rows| && rows[k].id == userId
    ensures var out, lastAdmin := DeleteUser(rows, guilds, userId), rows[k].isAdmin && CountWhere(rows, IsAdminRow) == 1;
      var owner := exists j :: 0 <= j < |guilds| && guilds[j].ownerUserId == userId;
      && (out.1 == LastAdmin <==> lastAdmin)
      && (out.1 == OwnsGuild <==> !lastAdmin && owner)
      && (out.1 == Deleted <==> !lastAdmin && !owner)
      && (out.1 == Deleted ==> out.0 == rows[..k] + rows[k + 1..])
      && (CountWhere(rows, IsAdminRow) >= 1 ==> CountWhere(out.0, IsAdminRow) >= 1)
  {
    UniqueLookups(rows, k);
    var found := FindFirst(guilds, (g: DiscordGuild) => g.ownerUserId == userId);
    if found.Some? {
      assert guilds[found.value].ownerUserId == userId;
    }
    if DeleteUser(rows, guilds, userId).1 == Deleted {
      CountWhereRemove(rows, k, IsAdminRow);
    }
  }

  /** Every guild's owner is a row of the user table. */
  ghost predicate OwnersExist(rows: seq<UserRow>, guilds: seq<DiscordGuild>)
  {
    forall j :: 0 <= j < |guilds| ==> exists i :: 0 <= i < |rows| && rows[i].id == guilds[j].ownerUserId
  }

  /** Deletion never leaves a guild whose owner is gone. */
  lemma {:induction false} DeleteKeepsOwners(rows: seq<UserRow>, guilds: seq<DiscordGuild>, userId: int)
    requires OwnersExist(rows, guilds)
    ensures OwnersExist(DeleteUser(rows, guilds, userId).0, guilds)
  {
    var out := DeleteUser(rows, guilds, userId);
    if out.1 == Deleted {
      var k := UserById(rows, userId).value;
      var rest := out.0;
      assert rest == rows[..k] + rows[k + 1..];
      forall j | 0 <= j < |guilds|
        ensures exists i :: 0 <= i < |rest| && rest[i].id == guilds[j].ownerUserId
      {
        var i :| 0 <= i < |rows| && rows[i].id == guilds[j].ownerUserId;
        assert i != k;
        var i' := if i < k then i else i - 1;
        assert rest[i'] == rows[i];
      }
    }
  }

  /** Removing one row keeps the table unique and leaves no row with its id. */
  lemma {:induction false} DeleteKeepsUnique(rows: seq<UserRow>, k: nat)
    requires UniqueUsers(rows) && k < |rows|
    ensures UniqueUsers(rows[..k] + rows[k + 1..])
    ensures var rest := rows[..k] + rows[k + 1..]; forall i :: 0 <= i < |rest| ==> rest[i].id != rows[k].id
  {
    var rest := rows[..k] + rows[k + 1..];
    forall i | 0 <= i < |rest| ensures rest[i] == rows[Skip(i, k)] && rest[i].id != rows[k].id {
    }
    forall i, j | 0 <= i < j < |rest|
      ensures rest[i].id != rest[j].id && rest[i].username != rest[j].username && rest[i].email != rest[j].email
    {
      assert Skip(i, k) < Skip(j, k);
    }
    forall i, j | 0 <= i < |rest| && 0 <= j < |rest| && i != j && rest[i].discordId.Some?
      ensures rest[i].discordId != rest[j].discordId
    {
      assert Skip(i, k) != Skip(j, k);
    }
  }

  /** The position in the table of element `i` once row `k` is removed. */
  function Skip(i: nat, k: nat): nat
  {
    if i < k then i else i + 1
  }

  // ---------------------------------------------------------------------
  // update_payment_config (app.py:615-643)

  /** The keys `update_payment_config` looks at; a present key may hold null. */
  datatype PaymentRequest = PaymentRequest(
    stripeSecretKey: Field<Option<string>>,
    stripePublishableKey: Field<Option<string>>,
    paypalClientId: Field<Option<string>>,
    paypalSecret: Field<Option<string>>)

  /** `key in data and data[key]`: present, not null and not empty. */
  predicate Truthy(f: Field<Option<string>>)
  {
    f.Present? && f.value.Some? && f.value.value != ""
  }

  /** `update_payment_config`: the first row, created empty when there is
      none, with the requested columns written. `encrypt` is `encrypt_data`
      on a non-empty string. */
  function UpdatePaymentConfig(current: Option<PaymentSettings>, req: PaymentRequest,
                               encrypt: string -> string): (s: PaymentSettings)
    ensures var base := if current.Some? then current.value else EmptyPaymentSettings;
      && s.stripeSecretKeyEncrypted ==
           (if Truthy(req.stripeSecretKey) then Some(encrypt(req.stripeSecretKey.value.value))
            else base.stripeSecretKeyEncrypted)
      && s.paypalSecretEncrypted ==
           (if Truthy(req.paypalSecret) then Some(encrypt(req.paypalSecret.value.value))
            else base.paypalSecretEncrypted)
      && s.stripePublishableKey == Or(req.stripePublishableKey, base.stripePublishableKey)
      && s.paypalClientId == Or(req.paypalClientId, base.paypalClientId)
      && s.webhookSecret == base.webhookSecret
  {
    var base := if current.Some? then current.value else EmptyPaymentSettings;
    var s1 := if Truthy(req.stripeSecretKey)
      then base.(stripeSecretKeyEncrypted := Some(encrypt(req.stripeSecretKey.value.value))) else base;
    var s2 := if req.stripePublishableKey.Present? then s1.(stripePublishableKey := req.stripePublishableKey.value) else s1;
    var s3 := if req.paypalClientId.Present? then s2.(paypalClientId := req.paypalClientId.value) else s2;
    if Truthy(req.paypalSecret) then s3.(paypalSecretEncrypted := Some(encrypt(req.paypalSecret.value.value))) else s3
  }

  /** A stored secret can be replaced but never cleared through this
      handler, while the public fields can be set to null; only the
      encrypted form of a secret is ever stored; the same request twice has
      the effect of once. */
  lemma {:induction false} PaymentConfigRules(current: Option<PaymentSettings>, req: PaymentRequest, encrypt: string -> string)
    ensures var s := UpdatePaymentConfig(current, req, encrypt);
      && (current.Some? && current.value.stripeSecretKeyEncrypted.Some? ==> s.stripeSecretKeyEncrypted.Some?)
      && (current.Some? && current.value.paypalSecretEncrypted.Some? ==> s.paypalSecretEncrypted.Some?)
      && (req.stripePublishableKey == Present(None) ==> s.stripePublishableKey == None)
      && (req.paypalClientId == Present(None) ==> s.paypalClientId == None)
      && UpdatePaymentConfig(Some(s), req, encrypt) == s
  {
  }

  /** A stored secret column holds what it held or `encrypt` of a value that
      was sent, never a plain value. */
  lemma {:induction false} PaymentSecretsEncrypted(current: Option<PaymentSettings>, req: PaymentRequest, encrypt: string -> string)
    ensures var s := UpdatePaymentConfig(current, req, encrypt);
      var base := if current.Some? then current.value else EmptyPaymentSettings;
      && (s.stripeSecretKeyEncrypted == base.stripeSecretKeyEncrypted ||
          exists k :: k != "" && req.stripeSecretKey == Present(Some(k)) && s.stripeSecretKeyEncrypted == Some(encrypt(k)))
      && (s.paypalSecretEncrypted == base.paypalSecretEncrypted ||
          exists k :: k != "" && req.paypalSecret == Present(Some(k)) && s.paypalSecretEncrypted == Some(encrypt(k)))
  {
  }
}
