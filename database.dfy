/** The backend's tables as objects: `User` rows whose fields the handlers
    write in place, the guild table, and the single payment configuration
    row. Each handler method makes the decisions of lol-coach-backend/app.py
    step by step and is proved to leave the tables, and to answer, exactly as
    the matching function of module Backend says. */
module Database {
  import opened Common
  import opened Text
  import opened Validation
  import opened Accounts
  import opened Backend

  /** The `payment_config` row. */
  class PaymentConfig {
    var stripeSecretKeyEncrypted: Option<string>
    var stripePublishableKey: Option<string>
    var paypalClientId: Option<string>
    var paypalSecretEncrypted: Option<string>
    var webhookSecret: Option<string>

    function Settings(): PaymentSettings
      reads this
    {
      PaymentSettings(stripeSecretKeyEncrypted, stripePublishableKey, paypalClientId,
                      paypalSecretEncrypted, webhookSecret)
    }

    /** `PaymentConfig()`: every column NULL. */
    constructor ()
      ensures Settings() == EmptyPaymentSettings
    {
      stripeSecretKeyEncrypted := None;
      stripePublishableKey := None;
      paypalClientId := None;
      paypalSecretEncrypted := None;
      webhookSecret := None;
    }

    /** The requested columns written in place; a secret is stored only
        in encrypted form. */
    method Write(req: PaymentRequest, encrypt: string -> string)
      modifies this
      ensures Settings() == Backend.UpdatePaymentConfig(Some(old(Settings())), req, encrypt)
    {
      if Truthy(req.stripeSecretKey) {
        stripeSecretKeyEncrypted := Some(encrypt(req.stripeSecretKey.value.value));
      }
      if req.stripePublishableKey.Present? {
        stripePublishableKey := req.stripePublishableKey.value;
      }
      if req.paypalClientId.Present? {
        paypalClientId := req.paypalClientId.value;
      }
      if Truthy(req.paypalSecret) {
        paypalSecretEncrypted := Some(encrypt(req.paypalSecret.value.value));
      }
    }
  }

  class Store {
    var users: seq<User>
    var guilds: seq<DiscordGuild>
    var paymentConfig: PaymentConfig?

    /** Every row is a distinct object, and the tables keep the uniqueness
        their columns declare. */
    ghost predicate Valid()
      reads this, users
    {
      Distinct() && UniqueUsers(Rows()) && UniqueGuilds(guilds)
    }

    /** No `User` object stands for two rows. */
    ghost predicate Distinct()
      reads this
    {
      forall i, j :: 0 <= i < j < |users| ==> users[i] != users[j]
    }

    /** The value of the `user` table. */
    function Rows(): (rs: seq<UserRow>)
      reads this, users
      ensures |rs| == |users| && forall i :: 0 <= i < |users| ==> rs[i] == users[i].Row()
    {
      seq(|users|, i requires 0 <= i < |users| reads this, users => users[i].Row())
    }

    /** The value of the `payment_config` table's first row, if any. */
    function Payment(): Option<PaymentSettings>
      reads this, paymentConfig
    {
      if paymentConfig == null then None else Some(paymentConfig.Settings())
    }

    /** An empty database. */
    constructor ()
      ensures Valid() && Rows() == [] && guilds == [] && Payment() == None
    {
      users := [];
      guilds := [];
      paymentConfig := null;
    }

    /** `register`. */
    method Register(username: string, email: string, password: string, passwordHash: string,
                    token: string, now: Time) returns (r: RegisterReply)
      requires Valid()
      modifies this
      ensures Valid()
      ensures (Rows(), r) == Backend.Register(old(Rows()), username, email, password, passwordHash, token, now)
      ensures guilds == old(guilds) && paymentConfig == old(paymentConfig)
    {
      r := AddUser(Sanitize(username), Sanitize(email), password, passwordHash, token, now);
    }

    /** `register` once the username and e-mail are sanitised. */
    method AddUser(name: string, mail: string, password: string, passwordHash: string,
                   token: string, now: Time) returns (r: RegisterReply)
      requires Valid()
      modifies this
      ensures Valid()
      ensures (Rows(), r) == Backend.AddUser(old(Rows()), name, mail, password, passwordHash, token, now)
      ensures guilds == old(guilds) && paymentConfig == old(paymentConfig)
    {
      var rows := Rows();
      AddUserKeepsUnique(rows, name, mail, password, passwordHash, token, now);
      var refusal := RegisterRefusal(rows, name, mail, password);
      if refusal.Some? {
        r := refusal.value;
      } else {
        var user := new User(NextUserId(rows), name, mail, passwordHash, token, now);
        Append(user);
        r := Registered(user.id);
      }
    }

    /** `login`: the matching `User` object counts a failure or is reset in place. */
    method Login(username: string, password: string, checkPassword: (string, string) -> bool, now: Time)
      returns (r: LoginReply)
      requires Valid()
      modifies users
      ensures Valid()
      ensures (Rows(), r) == Backend.Login(old(Rows()), username, password, checkPassword, now)
    {
      r := LoginAs(Sanitize(username), password, checkPassword, now);
    }

    /** `login` once the username is sanitised. */
    method LoginAs(name: string, password: string, checkPassword: (string, string) -> bool, now: Time)
      returns (r: LoginReply)
      requires Valid()
      modifies users
      ensures Valid()
      ensures (Rows(), r) == Backend.LoginAs(old(Rows()), name, password, checkPassword, now)
    {
      var rows := Rows();
      var found := UserByUsername(rows, name);
      if found.None? {
        return UnknownUser;
      }
      var k := found.value;
      var user := users[k];
      if user.IsLocked(now) {
        return AccountLocked;
      }
      if !checkPassword(user.passwordHash, password) {
        user.IncrementFailedLogin(now);
        RowsAfterWrite(k);
        SameKeysUnique(rows, Rows());
        return WrongPassword;
      }
      if !user.isActive {
        return AccountInactive;
      }
      user.ResetFailedLogin(now);
      RowsAfterWrite(k);
      SameKeysUnique(rows, Rows());
      r := LoggedIn(user.id);
    }

    /** `link_discord` for the authenticated user `users[me]`. */
    method LinkDiscord(me: nat, discordId: string) returns (r: LinkReply)
      requires Valid() && me < |users|
      modifies users[me]
      ensures Valid()
      ensures (Rows(), r) == Backend.LinkDiscord(old(Rows()), me, discordId)
    {
      r := LinkDiscordId(me, Sanitize(discordId));
    }

    /** `link_discord` once the Discord id is sanitised. */
    method LinkDiscordId(me: nat, d: string) returns (r: LinkReply)
      requires Valid() && me < |users|
      modifies users[me]
      ensures Valid()
      ensures (Rows(), r) == Backend.LinkDiscordId(old(Rows()), me, d)
    {
      var rows := Rows();
      LinkDiscordKeepsUnique(rows, me, d);
      if d == "" {
        r := MissingDiscordId;
      } else {
        var existing := UserByDiscordId(rows, d);
        if existing.Some? && users[existing.value].id != users[me].id {
          r := DiscordIdInUse;
        } else {
          var user := users[me];
          user.discordId := Some(d);
          RowsAfterWrite(me);
          r := Linked;
        }
      }
    }

    /** `register_guild`. */
    method RegisterGuild(guildId: string, inviterDiscordId: string, now: Time) returns (r: GuildReply)
      requires Valid()
      modifies this
      ensures Valid()
      ensures (guilds, r) == Backend.RegisterGuild(old(Rows()), old(guilds), guildId, inviterDiscordId, now)
      ensures users == old(users) && paymentConfig == old(paymentConfig)
    {
      r := AddGuild(Sanitize(guildId), Sanitize(inviterDiscordId), now);
    }

    /** `register_guild` once both ids are sanitised. */
    method AddGuild(g: string, d: string, now: Time) returns (r: GuildReply)
      requires Valid()
      modifies this
      ensures Valid()
      ensures (guilds, r) == Backend.AddGuild(old(Rows()), old(guilds), g, d, now)
      ensures users == old(users) && paymentConfig == old(paymentConfig)
    {
      var rows := Rows();
      AddGuildKeepsUnique(rows, guilds, g, d, now);
      if g == "" || d == "" {
        r := IncompleteData;
      } else {
        var inviter := UserByDiscordId(rows, d);
        if inviter.None? {
          r := InviterNotFound;
        } else if FindFirst(guilds, (x: DiscordGuild) => x.guildId == g).Some? {
          r := GuildAlreadyRegistered;
        } else {
          guilds := guilds + [DiscordGuild(NextGuildId(guilds), g, rows[inviter.value].id, true, now)];
          assert Rows() == rows;
          r := GuildRegistered;
        }
      }
    }

    /** `update_user`: the present keys are written to the `User` object. */
    method UpdateUser(userId: int, upd: UserUpdate) returns (r: UpdateReply)
      requires Valid()
      modifies users
      ensures Valid()
      ensures (Rows(), r) == Backend.UpdateUser(old(Rows()), userId, upd)
    {
      var rows := Rows();
      UpdateUserKeepsUnique(rows, userId, upd);
      var found := UserById(rows, userId);
      if found.None? {
        r := UserNotFound;
      } else {
        var k := found.value;
        WriteUpdate(users[k], upd);
        RowsAfterWrite(k);
        r := Updated;
      }
    }

    /** The `setattr` loop of `update_user` on one row object. */
    static method WriteUpdate(user: User, upd: UserUpdate)
      modifies user
      ensures user.Row() == ApplyUpdate(old(user.Row()), upd)
    {
      if upd.subscriptionStatus.Present? {
        user.subscriptionStatus := upd.subscriptionStatus.value;
      }
      if upd.subscriptionEndDate.Present? {
        user.subscriptionEndDate := Some(upd.subscriptionEndDate.value);
      }
      if upd.isAdmin.Present? {
        user.isAdmin := upd.isAdmin.value;
      }
      if upd.isActive.Present? {
        user.isActive := upd.isActive.value;
      }
    }

    /** `delete_user`; a user who still owns a guild is not removed. */
    method DeleteUser(userId: int) returns (r: DeleteReply)
      requires Valid()
      modifies this
      ensures Valid()
      ensures (Rows(), r) == Backend.DeleteUser(old(Rows()), old(guilds), userId)
      ensures guilds == old(guilds) && paymentConfig == old(paymentConfig)
    {
      var rows := Rows();
      var found := UserById(rows, userId);
      if found.None? {
        return NotFound;
      }
      var k := found.value;
      if users[k].isAdmin && CountWhere(rows, IsAdminRow) == 1 {
        return LastAdmin;
      }
      if FindFirst(guilds, (g: DiscordGuild) => g.ownerUserId == userId).Some? {
        return OwnsGuild;
      }
      DeleteKeepsUnique(rows, k);
      RemoveAt(k);
      r := Deleted;
    }

    /** Adds a new row object at the end of the table. */
    method Append(user: User)
      requires Distinct() && user !in users
      modifies this
      ensures users == old(users) + [user] && Distinct()
      ensures guilds == old(guilds) && paymentConfig == old(paymentConfig)
      ensures Rows() == old(Rows()) + [user.Row()]
    {
      users := users + [user];
      var added := old(Rows()) + [user.Row()];
      forall i | 0 <= i < |added|
        ensures Rows()[i] == added[i]
      {
        if i < |added| - 1 {
          assert users[i] == old(users[i]);
        }
      }
    }

    /** Drops the row object at index `k`. */
    method RemoveAt(k: nat)
      requires Distinct() && k < |users|
      modifies this
      ensures users == old(users[..k] + users[k + 1..]) && Distinct()
      ensures guilds == old(guilds) && paymentConfig == old(paymentConfig)
      ensures Rows() == old(Rows()[..k] + Rows()[k + 1..])
    {
      var before := users;
      users := users[..k] + users[k + 1..];
      assert forall i :: 0 <= i < |users| ==> users[i] == before[Skip(i, k)];
      assert Rows() == old(Rows()[..k] + Rows()[k + 1..]);
    }

    /** When only the object at index `k` was written, the table changed in
        that row alone. */
    twostate lemma {:induction false} RowsAfterWrite(k: nat)
      requires unchanged(this) && old(Distinct()) && k < old(|users|)
      requires forall i :: 0 <= i < |users| && i != k ==> unchanged(users[i])
      ensures Rows() == old(Rows())[k := users[k].Row()]
    {
      forall i | 0 <= i < |users| && i != k
        ensures Rows()[i] == old(Rows())[i]
      {
      }
    }

    /** `update_payment_config`: the first row, created when missing, has
        the requested columns written in place. */
    method UpdatePaymentConfig(req: PaymentRequest, encrypt: string -> string)
      requires Valid()
      modifies this, paymentConfig
      ensures Valid()
      ensures Payment() == Some(Backend.UpdatePaymentConfig(old(Payment()), req, encrypt))
      ensures users == old(users) && guilds == old(guilds)
    {
      if paymentConfig == null {
        paymentConfig := new PaymentConfig();
      }
      paymentConfig.Write(req, encrypt);
      assert Rows() == old(Rows());
    }
  }
}
