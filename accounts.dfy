/** The backend's `User` entity: its stored fields, the failed-login lockout
    and the serialisation with the masked e-mail (lol-coach-backend/app.py,
    lines 95-156). */
module Accounts {
  import opened Common
  import opened Text
  import opened Validation

  /** A point on the server's UTC clock, in seconds. */
  type Time = int

  const MAX_FAILED_ATTEMPTS := 5
  const LOCK_SECONDS := 30 * 60

  /** The value of one `user` row: every stored column except `updated_at`. */
  datatype UserRow = UserRow(
    id: int,
    username: string,
    email: string,
    passwordHash: string,
    discordId: Option<string>,
    isAdmin: bool,
    isActive: bool,
    subscriptionStatus: Option<string>,
    subscriptionEndDate: Option<Time>,
    emailVerified: bool,
    verificationToken: Option<string>,
    failedLoginAttempts: int,
    lockedUntil: Option<Time>,
    lastLogin: Option<Time>,
    createdAt: Time)

  /** A row as registration creates it: the column defaults plus what is given. */
  function NewUserRow(id: int, username: string, email: string, passwordHash: string,
                      verificationToken: string, now: Time): UserRow
  {
    UserRow(id, username, email, passwordHash, None, false, true, Some("inactive"), None, false,
            Some(verificationToken), 0, None, None, now)
  }

  /** `is_locked`: a lock is in force while its end lies strictly in the future. */
  predicate Locked(u: UserRow, now: Time)
  {
    u.lockedUntil.Some? && u.lockedUntil.value > now
  }

  /** The row after `increment_failed_login` at time `now`. */
  function AfterFailedLogin(u: UserRow, now: Time): UserRow
  {
    var n := u.failedLoginAttempts + 1;
    u.(failedLoginAttempts := n,
       lockedUntil := if n >= MAX_FAILED_ATTEMPTS then Some(now + LOCK_SECONDS) else u.lockedUntil)
  }

  /** The row after `reset_failed_login` at time `now`. */
  function AfterLoginReset(u: UserRow, now: Time): UserRow
  {
    u.(failedLoginAttempts := 0, lockedUntil := None, lastLogin := Some(now))
  }

  /** Right after the failure that brings the counter to five or more, the
      account is locked for exactly the next thirty minutes; below five the
      lock state is what it was. */
  lemma {:induction false} FailedLoginLocks(u: UserRow, now: Time, later: Time)
    ensures u.failedLoginAttempts + 1 >= MAX_FAILED_ATTEMPTS ==>
      (Locked(AfterFailedLogin(u, now), later) <==> later < now + LOCK_SECONDS)
    ensures u.failedLoginAttempts + 1 < MAX_FAILED_ATTEMPTS ==>
      (Locked(AfterFailedLogin(u, now), later) <==> Locked(u, later))
  {
  }

  /** A reset account is never locked. */
  lemma {:induction false} ResetUnlocks(u: UserRow, now: Time, later: Time)
    ensures !Locked(AfterLoginReset(u, now), later)
  {
  }

  /** A `user` row as an object whose methods update its fields in place. */
  class User {
    const id: int
    var username: string
    var email: string
    var passwordHash: string
    var discordId: Option<string>
    var isAdmin: bool
    var isActive: bool
    var subscriptionStatus: Option<string>
    var subscriptionEndDate: Option<Time>
    var emailVerified: bool
    var verificationToken: Option<string>
    var failedLoginAttempts: int
    var lockedUntil: Option<Time>
    var lastLogin: Option<Time>
    var createdAt: Time

    /** The row's current value. */
    function Row(): UserRow
      reads this
    {
      UserRow(id, username, email, passwordHash, discordId, isAdmin, isActive, subscriptionStatus,
              subscriptionEndDate, emailVerified, verificationToken, failedLoginAttempts,
              lockedUntil, lastLogin, createdAt)
    }

    /** `User(username=..., email=..., verification_token=...)` followed by `set_password`. */
    constructor (id: int, username: string, email: string, passwordHash: string,
                 verificationToken: string, now: Time)
      ensures Row() == NewUserRow(id, username, email, passwordHash, verificationToken, now)
    {
      this.id := id;
      this.username := username;
      this.email := email;
      this.passwordHash := passwordHash;
      this.discordId := None;
      this.isAdmin := false;
      this.isActive := true;
      this.subscriptionStatus := Some("inactive");
      this.subscriptionEndDate := None;
      this.emailVerified := false;
      this.verificationToken := Some(verificationToken);
      this.failedLoginAttempts := 0;
      this.lockedUntil := None;
      this.lastLogin := None;
      this.createdAt := now;
    }

    predicate IsLocked(now: Time)
      reads this
      ensures IsLocked(now) <==> Locked(Row(), now)
    {
      lockedUntil.Some? && lockedUntil.value > now
    }

    method IncrementFailedLogin(now: Time)
      modifies this
      ensures failedLoginAttempts == old(failedLoginAttempts) + 1
      ensures failedLoginAttempts >= MAX_FAILED_ATTEMPTS ==> lockedUntil == Some(now + LOCK_SECONDS)
      ensures failedLoginAttempts < MAX_FAILED_ATTEMPTS ==> lockedUntil == old(lockedUntil)
      ensures Row() == AfterFailedLogin(old(Row()), now)
    {
      failedLoginAttempts := failedLoginAttempts + 1;
      if failedLoginAttempts >= MAX_FAILED_ATTEMPTS {
        lockedUntil := Some(now + LOCK_SECONDS);
      }
    }

    method ResetFailedLogin(now: Time)
      modifies this
      ensures failedLoginAttempts == 0 && lockedUntil == None && lastLogin == Some(now)
      ensures Row() == AfterLoginReset(old(Row()), now)
    {
      failedLoginAttempts := 0;
      lockedUntil := None;
      lastLogin := Some(now);
    }
  }

  // ---------------------------------------------------------------------
  // Serialisation

  function Min(a: int, b: int): int { if a <= b then a else b }

  /** `email[:3] + '***@' + email.split('@')[1]`; without an '@' the
      indexing raises, modelled as None. */
  function MaskEmail(email: string): (r: Option<string>)
    ensures r.None? <==> '@' !in email
  {
    match FirstIndexOf(email, '@')
    case None => None
    case Some(a) =>
      var rest := email[a + 1..];
      var second := match FirstIndexOf(rest, '@')
        case None => rest
        case Some(b) => rest[..b];
      Some(email[..Min(3, |email|)] + "***@" + second)
  }

  /** For an address with a single '@', the mask keeps the first three
      characters of the address and the whole domain. */
  lemma {:induction false} MaskOfValidEmail(email: string, a: nat)
    requires a < |email| && email[a] == '@' && '@' !in email[..a] && '@' !in email[a + 1..]
    ensures MaskEmail(email) == Some(email[..Min(3, |email|)] + "***@" + email[a + 1..])
  {
    assert FirstIndexOf(email, '@') == Some(a);
  }

  /** With a local part of three or more characters the masked form shows
      only its first three characters and contains a single '@'. */
  lemma {:induction false} MaskHidesLongLocalPart(email: string, a: nat)
    requires 3 <= a < |email| && email[a] == '@' && '@' !in email[..a] && '@' !in email[a + 1..]
    ensures MaskEmail(email).Some?
    ensures var m := MaskEmail(email).value;
      && m == email[..3] + "***@" + email[a + 1..]
      && m[6] == '@' && '@' !in m[..6] && '@' !in m[7..]
  {
    MaskOfValidEmail(email, a);
    var m := MaskEmail(email).value;
    assert m[..6] == email[..3] + "***";
    assert email[..3] == email[..a][..3];
    assert m[7..] == email[a + 1..];
  }

  /** With a local part shorter than three characters the first three
      characters already include the '@', so the masked form shows the whole
      local part and holds two '@'. */
  lemma {:induction false} MaskKeepsShortLocalPart(email: string, a: nat)
    requires a < 3 && a < |email| && email[a] == '@' && '@' !in email[..a] && '@' !in email[a + 1..]
    ensures MaskEmail(email).Some?
    ensures var m := MaskEmail(email).value;
      m[..a] == email[..a] && m[a] == '@' && '@' in m[a + 1..]
  {
    MaskOfValidEmail(email, a);
    var m := MaskEmail(email).value;
    var k := Min(3, |email|);
    assert m[k + 3] == '@';
    assert m[a + 1..][k + 2 - a] == '@';
  }

  /** The dictionary `to_dict` builds: no password hash, verification token,
      counter or lock is ever exposed. */
  datatype UserDict = UserDict(
    id: int,
    username: string,
    email: string,
    discordId: Option<string>,
    isAdmin: bool,
    isActive: bool,
    subscriptionStatus: Option<string>,
    subscriptionEndDate: Option<Time>,
    emailVerified: bool,
    lastLogin: Option<Time>,
    createdAt: Time)

  /** `to_dict(include_sensitive)`: None when masking raises. */
  function ToDict(u: UserRow, includeSensitive: bool): (d: Option<UserDict>)
    ensures d.None? <==> !includeSensitive && '@' !in u.email
    ensures d.Some? ==> d.value.email == if includeSensitive then u.email else MaskEmail(u.email).value
    ensures d.Some? ==>
      && d.value.id == u.id && d.value.username == u.username
      && d.value.discordId == u.discordId && d.value.isAdmin == u.isAdmin && d.value.isActive == u.isActive
      && d.value.subscriptionStatus == u.subscriptionStatus
      && d.value.subscriptionEndDate == u.subscriptionEndDate
      && d.value.emailVerified == u.emailVerified && d.value.lastLogin == u.lastLogin
      && d.value.createdAt == u.createdAt
  {
    var shown := if includeSensitive then Some(u.email) else MaskEmail(u.email);
    match shown
    case None => None
    case Some(e) =>
      Some(UserDict(u.id, u.username, e, u.discordId, u.isAdmin, u.isActive, u.subscriptionStatus,
                    u.subscriptionEndDate, u.emailVerified, u.lastLogin, u.createdAt))
  }
}
