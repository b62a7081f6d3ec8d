# LoL Coach: account rules and guild sessions in Dafny

This project models two parts of the LoL Coach system and proves properties about them.

**The Flask backend** (`lol-coach-backend/app.py`) serves accounts and subscriptions. The model covers:

- the password, e-mail and sanitising validators;
- the per-user failed-login lockout;
- the e-mail mask in `to_dict`;
- the decisions made by the register, login, refresh, link-Discord, subscription-check, guild-registration, user-update, user-delete and payment-configuration handlers.

**The Discord bot** (`lol_coach_bot/discord_bot_cloud.py`) coordinates one session per guild. The model covers:

- the registry of `GuildState` objects and the commands that write them;
- the prompt that `ask` assembles;
- the connected-client count shown by `status`;
- the deterministic part of the post-game report.

The modules, one per file:

| module | file | contents |
|---|---|---|
| `Common` | `common.dfy` | Option, a first-match search, counting and the maximum key |
| `Text` | `text.dfy` | character classes and `str` operations with Python's meaning |
| `Validation` | `validation.dfy` | `validate_password_strength`, `validate_email`, `sanitize_input` |
| `Accounts` | `accounts.dfy` | the `User` row as a value and as a class with `is_locked`, `increment_failed_login` and `reset_failed_login`; `to_dict` and its mask |
| `Backend` | `backend.dfy` | each handler as a pure function from the tables before a request to the tables after it and the reply, with lemmas about each |
| `Database` | `database.dfy` | the same handlers as methods on a `Store`, writing `User` and `PaymentConfig` objects in place; each method is proved equal to its `Backend` function |
| `GuildSessions` | `guild_sessions.dfy` | `GuildState` and the `bot.guild_states` registry as classes; the commands, `ask` and `status` |
| `Postgame` | `postgame.dfy` | `generate_postgame_report` without the file load and the model call |

**Modelling choices:**

- `lol_coach_bot/discord_bot_cloud.py` as written escapes quotes outside string literals, for example `command_prefix=\'!coach \'` at line 37 and `{\", \".join(...)}` at line 377. Python rejects those lines, so the file as written does not import. The model describes the program that results once those backslashes are dropped.
- Time is an integer count of seconds on the server's UTC clock. `datetime.utcnow()` becomes a `now` parameter.
- Password hashing, `verify_token` and `encrypt_data` come in as function parameters. So do the random salt and token values.
- The relay server's `active_games`, `clients` and `user_tokens` tables are input maps.
- A key that the Python code reads with `data[...]` and that may be missing is a `Field` (absent, or present with a value). A JSON null is an `Option`. In the bot's roster entries, `None` stands for any value that is not a string (null or a number).
- Where the source raises an exception, the model returns a `None` or failure result instead:
  - `email.split('@')[1]` on an address without `@` in `to_dict`;
  - `', '.join` in `ask` over a player whose `championName` is missing or is not a string.

## Model

| member | source | states |
|---|---|---|
| Validation.CheckPasswordStrength | lol-coach-backend/app.py:64-76 | a password is accepted iff it has 8 or more characters, an upper-case letter, a lower-case letter, a digit and a character of the special class; otherwise the first failing check, in the source's order, decides the verdict, each stated as an iff; a digit here is one of `0`-`9` (see Left out) |
| Validation.EmailBodyIsPattern | lol-coach-backend/app.py:79-82 | the deterministic matcher, which splits at the first `@` and the last `.` after it, accepts exactly the strings the pattern matches in full |
| Validation.ValidEmailIsPattern | lol-coach-backend/app.py:79-82 | `validate_email` accepts a string iff the pattern matches all of it, or all of it except one final newline (`re.match` with `$`) |
| Validation.ValidEmail | lol-coach-backend/app.py:79-82 | definition: the pattern matches the whole string, or all but one final newline; its meaning is proved in `ValidEmailIsPattern` and `ValidEmailHasOneAt` |
| Validation.ValidEmailHasOneAt | lol-coach-backend/app.py:79-82 | an address that matches the pattern has exactly one `@`, with a non-empty part before it |
| Validation.StripTags | lol-coach-backend/app.py:90 | the tag pass adds no character, and its result has no `<` followed later by a `>` |
| Validation.DropDangerous | lol-coach-backend/app.py:91 | the character pass removes every semicolon, ampersand, bar, backtick and dollar sign, adds no character, and keeps the text free of tags |
| Validation.Sanitize | lol-coach-backend/app.py:85-92 | empty input comes back unchanged; the output has no dangerous character, no `<` followed later by `>`, no leading or trailing whitespace, and only characters of the input |
| Validation.SanitizeUnchanged | lol-coach-backend/app.py:85-92 | text that is already clean is a fixed point of sanitising |
| Validation.SanitizeIdempotent | lol-coach-backend/app.py:85-92 | sanitising twice gives the same text as sanitising once |
| Accounts.FailedLoginLocks | lol-coach-backend/app.py:121-132 | after the failure that brings the counter to 5 or more, the account is locked exactly for the next 30 minutes; below 5, the lock state is what it was |
| Accounts.AfterFailedLogin | lol-coach-backend/app.py:127-132 | definition of `increment_failed_login` on a row value; its properties are proved in `FailedLoginLocks` and `User.IncrementFailedLogin` |
| Accounts.AfterLoginReset | lol-coach-backend/app.py:134-139 | definition of `reset_failed_login` on a row value; its properties are proved in `ResetUnlocks` and `User.ResetFailedLogin` |
| Accounts.ResetUnlocks | lol-coach-backend/app.py:121-125 | a reset account is never locked, at any later time |
| Accounts.User.constructor | lol-coach-backend/app.py:96-111 | a new user object holds the column defaults plus the given username, e-mail, hash and verification token |
| Accounts.User.IsLocked | lol-coach-backend/app.py:121-125 | true iff `locked_until` is set and strictly later than now |
| Accounts.User.IncrementFailedLogin | lol-coach-backend/app.py:127-132 | the counter goes up by exactly 1; the lock is set to now + 30 minutes exactly when the new count is 5 or more, and otherwise left as it was; no other field changes |
| Accounts.User.ResetFailedLogin | lol-coach-backend/app.py:134-139 | the counter becomes 0, the lock is cleared and `last_login` becomes now; no other field changes |
| Accounts.MaskEmail | lol-coach-backend/app.py:146 | the mask fails exactly when the address has no `@` |
| Accounts.MaskOfValidEmail | lol-coach-backend/app.py:146 | for an address with one `@`, the mask is the first three characters, `***@`, and the whole domain |
| Accounts.MaskHidesLongLocalPart | lol-coach-backend/app.py:146 | with a local part of three or more characters, the mask shows only three characters of it and holds a single `@` |
| Accounts.MaskKeepsShortLocalPart | lol-coach-backend/app.py:146 | with a local part shorter than three characters, the mask reveals the whole local part and holds two `@` |
| Accounts.ToDict | lol-coach-backend/app.py:141-156 | the dictionary copies every public field; the e-mail is shown in full when sensitive data is requested and masked otherwise; the hash, token, counter and lock are never included; it fails exactly when masking raises |
| Backend.UniqueLookups | lol-coach-backend/app.py:97-100 | under the table's declared uniqueness, each lookup by id, username, e-mail or Discord id finds the one matching row |
| Backend.Register | lol-coach-backend/app.py:309-347 | definition: `AddUser` over the sanitised username and e-mail; its properties are proved in `AddUserDecisions`, `AddUserKeepsUnique` and `RegisteredEmailIsMaskable` |
| Backend.AddUser | lol-coach-backend/app.py:319-347 | definition of the checks and the insertion; its properties are proved in `AddUserDecisions` and `AddUserKeepsUnique` |
| Backend.AddUserDecisions | lol-coach-backend/app.py:319-347 | each register reply, as an iff over the checks in source order (short username, invalid e-mail, weak password with its verdict, username taken, e-mail taken, success); only success appends a row, with a fresh positive id |
| Backend.AddUserKeepsUnique | lol-coach-backend/app.py:330-347 | registration keeps ids, usernames, e-mails and Discord ids unique |
| Backend.RegisteredEmailIsMaskable | lol-coach-backend/app.py:314-359 | a stored address matches the pattern in full, so the masked `to_dict` in the register reply cannot raise and shows the whole domain |
| Backend.Login | lol-coach-backend/app.py:364-394 | definition: `LoginAs` over the sanitised username; its properties are proved in `LoginKeepsKeys`, `LoginDecisionOrder` and `FiveFailuresLock` |
| Backend.LoginAs | lol-coach-backend/app.py:371-394 | definition of the lookup, lock, password and active checks; its properties are proved in `LoginDecisionOrder` |
| Backend.LoginKeepsKeys | lol-coach-backend/app.py:368-394 | an unknown user iff no row has the name; only a wrong password or a success writes the table, and never a key, hash or active flag |
| Backend.LoginDecisionOrder | lol-coach-backend/app.py:371-394 | locked → 403 with the counter unchanged; else wrong password → counter incremented, 401; else inactive → 403 with no reset; else success, with a reset; each outcome is an iff |
| Backend.FailAllCounts | lol-coach-backend/app.py:127-132 | up to five failures on an unlocked row count up one each, and lock the row 30 minutes after the fifth failure |
| Backend.RunOfFailures | lol-coach-backend/app.py:383-386 | a run of wrong passwords against an unlocked account is refused attempt by attempt, and writes the failure count into the row |
| Backend.FailuresAreCounted | lol-coach-backend/app.py:378-386 | after n wrong passwords, with n no more than the attempts left before 5: every reply is a wrong password; the counter rose by n; the lock is set exactly at the fifth failure; no other row changed; the table stays unique |
| Backend.FiveFailuresLock | lol-coach-backend/app.py:378-386 | five wrong passwords on a fresh account lock it: for 30 minutes, every login is refused as locked, whatever the password, and writes nothing |
| Backend.Refresh | lol-coach-backend/app.py:410-432 | missing token iff the field is empty; invalid iff the claims carry no user or are not a refresh token; new access token only for an existing, active user |
| Backend.RefreshIff | lol-coach-backend/app.py:415-425 | with unique ids, a refresh succeeds exactly for a refresh token that names an existing, active user |
| Backend.BearerToken | lol-coach-backend/app.py:276-277 | a leading `Bearer ` is removed, and nothing else is |
| Backend.Authenticate | lol-coach-backend/app.py:268-293 | no token iff the header is empty; bad token iff the claims carry no user; authenticated only as an active user whose id is in the claims |
| Backend.AuthenticateIff | lol-coach-backend/app.py:279-289 | with unique ids, a request authenticates as row k exactly when its token names k's id and k is active, whatever the token's type |
| Backend.RequireAdmin | lol-coach-backend/app.py:295-304 | admin access iff authenticated as a row with `is_admin` |
| Backend.LinkDiscord | lol-coach-backend/app.py:443-459 | definition: `LinkDiscordId` over the sanitised id; its properties are proved in `LinkDiscordDecisions`, `LinkDiscordInUse` and `LinkDiscordKeepsUnique` |
| Backend.LinkDiscordId | lol-coach-backend/app.py:446-459 | definition of the empty check, the in-use check and the write; its properties are proved in the same lemmas |
| Backend.LinkDiscordDecisions | lol-coach-backend/app.py:446-458 | an empty id is refused as missing; a refusal writes nothing; a link writes the id into the caller's row alone; an id in use belongs to another account's id |
| Backend.LinkDiscordInUse | lol-coach-backend/app.py:452-456 | with unique keys, a non-empty id is refused exactly when another account holds it |
| Backend.LinkDiscordKeepsUnique | lol-coach-backend/app.py:452-459 | after linking, a Discord id still belongs to at most one account |
| Backend.CheckSubscription | lol-coach-backend/app.py:471-493 | missing guild id iff the parameter is empty; "active" only when an active registration's owner is active, has status "active" and an end date after now |
| Backend.CheckSubscriptionIff | lol-coach-backend/app.py:478-493 | with unique keys, "active" exactly when that condition holds; every other non-empty query is "inactive" |
| Backend.RegisterGuild | lol-coach-backend/app.py:497-524 | definition: `AddGuild` over the sanitised ids; its properties are proved in `AddGuildDecisions` and `AddGuildKeepsUnique` |
| Backend.AddGuild | lol-coach-backend/app.py:500-524 | definition of the checks and the append; its properties are proved in `AddGuildDecisions` and `AddGuildKeepsUnique` |
| Backend.AddGuildDecisions | lol-coach-backend/app.py:500-524 | each guild-registration reply as a condition over the checks in source order; only success appends a guild, active, owned by the inviter, with a fresh id and a guild id not yet present |
| Backend.AddGuildKeepsUnique | lol-coach-backend/app.py:513-524 | guild registration keeps guild row ids and Discord guild ids unique |
| Backend.ApplyUpdate | lol-coach-backend/app.py:551-561 | definition of the `if key in data` writes; its properties are proved in `ApplyUpdateWrites` and `ApplyUpdateTwice` |
| Backend.ApplyUpdateWrites | lol-coach-backend/app.py:551-561 | a present key is written, an absent key keeps the stored value, and no other column changes |
| Backend.ApplyUpdateTwice | lol-coach-backend/app.py:551-561 | writing the same keys twice gives the same row as writing them once |
| Backend.UpdateUser | lol-coach-backend/app.py:542-561 | not found iff no row has the id, and then nothing changes; otherwise exactly that row receives the update, a JSON null status included |
| Backend.UpdateUserKeepsUnique | lol-coach-backend/app.py:551-561 | an update never touches a key column, so the table stays unique |
| Backend.UpdateUserIdempotent | lol-coach-backend/app.py:542-561 | sending the same update again changes nothing further |
| Backend.UpdateMayRemoveLastAdmin | lol-coach-backend/app.py:542-561 | for every table with exactly one administrator and every update that sends `is_admin: false` for that administrator, the update succeeds and leaves no administrator |
| Backend.DeleteUser | lol-coach-backend/app.py:575-591 | not found iff no row has the id; only a deletion changes the table, and it removes exactly that id's row; a user who owns a guild gets the 500 of the failed commit (non-null owner at app.py:161, handler at app.py:736-740) and the table is unchanged; a deleted user owns no guild |
| Backend.DeleteUserGuard | lol-coach-backend/app.py:582-586 | refused as the last admin exactly when the target is an admin and the only one; otherwise it fails exactly when the target owns a guild; otherwise the row is removed; a table with an admin keeps one |
| Backend.DeleteKeepsOwners | lol-coach-backend/app.py:161-165 | when every guild's owner is a user, that stays true after any delete request |
| Backend.DeleteKeepsUnique | lol-coach-backend/app.py:585 | removing a row keeps the table unique and leaves no row with the removed id |
| Backend.UpdatePaymentConfig | lol-coach-backend/app.py:617-635 | starting from the existing row, or an empty one when there is none: each secret is replaced by its encryption only when the value sent is non-empty; the publishable key and client id are overwritten whenever their key is present, null included; the webhook secret is kept |
| Backend.PaymentConfigRules | lol-coach-backend/app.py:625-635 | a stored secret can be replaced but never cleared; the public fields can be set to null; sending the same request twice has the effect of sending it once |
| Backend.PaymentSecretsEncrypted | lol-coach-backend/app.py:625-635 | a secret column holds either its old value or the encryption of a non-empty value that was sent, never a plain value |
| Database.PaymentConfig.constructor | lol-coach-backend/app.py:619-621 | a new configuration row has every column null |
| Database.PaymentConfig.Write | lol-coach-backend/app.py:625-635 | the in-place writes leave the row as `Backend.UpdatePaymentConfig` gives it |
| Database.Store.Register | lol-coach-backend/app.py:309-347 | the user table and the reply are those of `Backend.Register`; the uniqueness invariant is kept |
| Database.Store.AddUser | lol-coach-backend/app.py:319-347 | on sanitised input, the checks and the insertion of a new `User` object give the table and reply of `Backend.AddUser` |
| Database.Store.Login | lol-coach-backend/app.py:364-394 | the user table and the reply are those of `Backend.Login`, with the counter written on the user object in place |
| Database.Store.LoginAs | lol-coach-backend/app.py:371-394 | the lookup, lock check, password check and active check, then `increment_failed_login` or `reset_failed_login` on the object, match `Backend.LoginAs` |
| Database.Store.LinkDiscord | lol-coach-backend/app.py:443-459 | the caller's object receives the id exactly as `Backend.LinkDiscord` says; uniqueness is kept |
| Database.Store.LinkDiscordId | lol-coach-backend/app.py:448-459 | the checks and the in-place write match `Backend.LinkDiscordId` |
| Database.Store.RegisterGuild | lol-coach-backend/app.py:497-524 | the guild table and the reply are those of `Backend.RegisterGuild`; users are untouched |
| Database.Store.AddGuild | lol-coach-backend/app.py:503-524 | the checks and the append match `Backend.AddGuild` |
| Database.Store.UpdateUser | lol-coach-backend/app.py:542-563 | the object of the row with that id is updated in place, as `Backend.UpdateUser` says; uniqueness is kept |
| Database.Store.WriteUpdate | lol-coach-backend/app.py:551-561 | the `if key in data` writes leave the object equal to `ApplyUpdate` of its old value |
| Database.Store.DeleteUser | lol-coach-backend/app.py:575-586 | the lookup, the last-admin guard, the failed commit for a guild owner and the removal match `Backend.DeleteUser`; guilds and the payment row are untouched |
| Database.Store.UpdatePaymentConfig | lol-coach-backend/app.py:615-637 | the first row, created when missing, is written in place to `Backend.UpdatePaymentConfig` of what it held; no user or guild changes |
| GuildSessions.DefaultView | lol_coach_bot/discord_bot_cloud.py:44-54 | a new state: not monitoring, no voice client, no players, no tips, no channel, no tokens, and the name "Treinador Virtual" |
| GuildSessions.StartView | lol_coach_bot/discord_bot_cloud.py:179-185 | already monitoring iff monitoring, and then the state is unchanged; otherwise monitoring begins in the given channel, with the tips cleared and nothing else changed |
| GuildSessions.StopView | lol_coach_bot/discord_bot_cloud.py:200-205 | not monitoring iff not monitoring, and then the state is unchanged; otherwise monitoring ends, with the tips cleared and nothing else changed |
| GuildSessions.StartStopModes | lol_coach_bot/discord_bot_cloud.py:179-205 | after any start the guild is monitoring, and a second start only warns; after any stop it is not monitoring, and a second stop only warns |
| GuildSessions.StartThenStop | lol_coach_bot/discord_bot_cloud.py:179-205 | start then stop on an idle guild gives back the idle state, with no tips and the new text channel |
| GuildSessions.RunKeepsOthers | lol_coach_bot/discord_bot_cloud.py:174-207 | any run of start and stop commands: it changes only the mode, the channel and the tips; the last command sets the mode; the tips are kept or cleared, and are cleared whenever the mode changed |
| GuildSessions.RenameView | lol_coach_bot/discord_bot_cloud.py:213 | the bot name becomes the new name and nothing else changes |
| GuildSessions.StoreToken | lol_coach_bot/discord_bot_cloud.py:120-121 | the author's entry holds the new token; no other user's entry and no other field changes |
| GuildSessions.StoreTokenTwice | lol_coach_bot/discord_bot_cloud.py:120-121 | asking for a token twice keeps only the second, so each (user, guild) holds one token |
| GuildSessions.Touch | lol_coach_bot/discord_bot_cloud.py:62-66 | afterwards the guild has an entry: the existing one, or the default state; no other guild's entry changes |
| GuildSessions.TouchIdempotent | lol_coach_bot/discord_bot_cloud.py:62-66 | looking up twice is looking up once; lookups of two guilds commute; a present guild is left alone |
| GuildSessions.Forget | lol_coach_bot/discord_bot_cloud.py:109-110 | only that guild's entry is removed; every other entry is kept |
| GuildSessions.ForgetProperties | lol_coach_bot/discord_bot_cloud.py:106-110 | removing an absent guild changes nothing; a guild that was looked up and then left is gone, as if never seen; removal is idempotent |
| GuildSessions.SnapshotFor | lol_coach_bot/discord_bot_cloud.py:224-225 | game data is consulted iff the author holds a non-empty token in this guild and a snapshot exists for that token |
| GuildSessions.ChampionNames | lol_coach_bot/discord_bot_cloud.py:239 | the roster's champion names, in order; fails iff some player's `championName` is missing or is not a string, the inputs on which `join` raises |
| GuildSessions.Context | lol_coach_bot/discord_bot_cloud.py:227-239 | definition of the context text; its properties are proved in `ContextCases` and `BuildContext` |
| GuildSessions.ContextCases | lol_coach_bot/discord_bot_cloud.py:227-239 | without a snapshot the context is empty; with one, it fails iff a roster entry's champion is missing or is not a string, and is empty iff all three sections are empty |
| GuildSessions.SystemPrompt | lol_coach_bot/discord_bot_cloud.py:244 | definition of the fixed Portuguese system prompt with the bot's and the author's names; used by `AskShape` |
| GuildSessions.AskMessages | lol_coach_bot/discord_bot_cloud.py:224-248 | definition of the message list; its properties are proved in `AskShape`, `AskWithoutGame`, `AskReadsOnlyAuthorsToken` and `AssemblePrompt` |
| GuildSessions.AskShape | lol_coach_bot/discord_bot_cloud.py:241-248 | the messages are the system prompt, then the context message iff the context is non-empty, then the question |
| GuildSessions.AskWithoutGame | lol_coach_bot/discord_bot_cloud.py:224-248 | without a usable token or a snapshot, the prompt is the system message and the question alone |
| GuildSessions.AskReadsOnlyAuthorsToken | lol_coach_bot/discord_bot_cloud.py:224-225 | other users' tokens never affect the prompt |
| GuildSessions.AssemblePrompt | lol_coach_bot/discord_bot_cloud.py:224-248 | the step-by-step assembly gives the messages `AskMessages` specifies |
| GuildSessions.BuildContext | lol_coach_bot/discord_bot_cloud.py:227-239 | the `+=` accumulation gives the context `Context` specifies |
| GuildSessions.ConnectedClients | lol_coach_bot/discord_bot_cloud.py:277 | the count is the number of tokens recorded for this guild that are in `clients`, so at most the number of clients and at most the number of the guild's tokens |
| GuildSessions.ConnectedClientsChanges | lol_coach_bot/discord_bot_cloud.py:277 | a client of another guild connecting leaves the count unchanged; one of this guild's tokens connecting raises it by one |
| GuildSessions.GuildState.constructor | lol_coach_bot/discord_bot_cloud.py:44-54 | a new state object holds the default state |
| GuildSessions.GuildState.Start | lol_coach_bot/discord_bot_cloud.py:179-185 | the in-place writes and the reply are those of `StartView` |
| GuildSessions.GuildState.Stop | lol_coach_bot/discord_bot_cloud.py:200-205 | the in-place writes and the reply are those of `StopView` |
| GuildSessions.Bot.GetGuildState | lol_coach_bot/discord_bot_cloud.py:62-66 | returns the registered object, creating and registering a fresh default one only when it is missing; the registry becomes `Touch` of what it was |
| GuildSessions.Bot.OnGuildRemove | lol_coach_bot/discord_bot_cloud.py:106-110 | removes only that guild's entry, and is a no-op when the guild is absent |
| GuildSessions.Bot.GetToken | lol_coach_bot/discord_bot_cloud.py:115-121 | the guild's entry, created if needed, stores the author's token; every other guild is unchanged |
| GuildSessions.Bot.StartMonitoring | lol_coach_bot/discord_bot_cloud.py:175-185 | the guild's entry, created if needed, changes as `StartView` says; every other guild is unchanged |
| GuildSessions.Bot.StopMonitoring | lol_coach_bot/discord_bot_cloud.py:196-205 | the guild's entry, created if needed, changes as `StopView` says; every other guild is unchanged |
| GuildSessions.Bot.SetBotName | lol_coach_bot/discord_bot_cloud.py:210-213 | the guild's entry, created if needed, takes the new name; every other guild is unchanged |
| GuildSessions.Bot.Ask | lol_coach_bot/discord_bot_cloud.py:217-248 | the registry changes only by the lookup, and the prompt is `AskMessages` over this guild's bot name and token table |
| GuildSessions.Bot.Status | lol_coach_bot/discord_bot_cloud.py:269-277 | the registry changes only by the lookup, and the count is `ConnectedClients` for this guild |
| Postgame.RoundDiv | lol_coach_bot/discord_bot_cloud.py:358 | the result is within half a divisor of the exact quotient, and on a tie it is even (Python's `round`) |
| Postgame.Grouped | lol_coach_bot/discord_bot_cloud.py:366 | definition of Python's `{:,}`, never empty; its meaning is proved in `GroupedNatShape` and `GroupedDigits` |
| Postgame.GroupedNatShape | lol_coach_bot/discord_bot_cloud.py:366 | `{:,}` of a natural number is the comma-join of its groups: the first has one to three digits, every later one exactly three |
| Postgame.GroupedDigits | lol_coach_bot/discord_bot_cloud.py:366 | deleting the commas from `{:,}` of any integer gives `str(n)` |
| Postgame.ItemLabel | lol_coach_bot/discord_bot_cloud.py:374 | the known name of an item id, or "Item ID: n" for an unknown one |
| Postgame.ItemNames | lol_coach_bot/discord_bot_cloud.py:370-375 | the labels of the filled slots below n, at most n of them; its contents and order are proved in `ItemNamesContents` and `ItemNamesInOrder` |
| Postgame.ItemNamesContents | lol_coach_bot/discord_bot_cloud.py:370-375 | every filled slot contributes its label, nothing else is listed, and the list is empty iff no slot is filled |
| Postgame.ItemNamesInOrder | lol_coach_bot/discord_bot_cloud.py:371-375 | of two filled slots, the lower slot's label is listed first |
| Postgame.Tips | lol_coach_bot/discord_bot_cloud.py:380-386 | definition of the tip selection; its properties are proved in `TipRules` and `TipLines` |
| Postgame.TipRules | lol_coach_bot/discord_bot_cloud.py:380-386 | the death tip iff deaths exceed kills plus assists; the farm tip iff not, and CS is below 5 per minute; never both; the vision tip iff vision is below 1.5 per minute, decided on its own |
| Postgame.ReportLines | lol_coach_bot/discord_bot_cloud.py:347-406 | definition of the report lines; its properties are proved in `ReportUsesFirstMatch`, `ReportListsItemsAndTips`, `ReportWithoutPlayer` and `CollectReportLines` |
| Postgame.ReportUsesFirstMatch | lol_coach_bot/discord_bot_cloud.py:347-406 | the report describes the first matching participant, and ends with the model's advice, or with the apology when there is none |
| Postgame.ReportListsItemsAndTips | lol_coach_bot/discord_bot_cloud.py:370-386 | the items line is present iff some slot is filled, and every selected tip appears |
| Postgame.ReportWithoutPlayer | lol_coach_bot/discord_bot_cloud.py:353-354 | a player not in the match gets only the fixed "not found" message |
| Postgame.FindParticipant | lol_coach_bot/discord_bot_cloud.py:347-351 | the `for ... break` loop finds the first participant with the puuid, or none |
| Postgame.ListItems | lol_coach_bot/discord_bot_cloud.py:370-375 | the loop over slots 0..6 builds the list `ItemNames` specifies |
| Postgame.TipLines | lol_coach_bot/discord_bot_cloud.py:380-386 | the tip appends give the tips `Tips` specifies |
| Postgame.CollectReportLines | lol_coach_bot/discord_bot_cloud.py:347-406 | the search and the `report.append` calls give the lines `ReportLines` specifies |
| Postgame.Render | lol_coach_bot/discord_bot_cloud.py:408 | `"\n".join` of the lines' texts, which begins with the first line's text |
| Postgame.GeneratePostgameReport | lol_coach_bot/discord_bot_cloud.py:330-408 | the report is the newline join of those lines |

## Left out

- Flask routing, CORS, the rate limiter and the JSON transport are not modelled. Each handler's reply is a datatype with its HTTP status on it.
- SQLAlchemy sessions and commits are left out. The tables are sequences of rows, and in `Database` sequences of objects.
- Audit and security-event logging are left out (`log_audit`, `log_security_event`, `get_audit_logs`, `get_security_events`). They only write log rows.
- The admin seeding at start-up is left out. It is database I/O with values from the environment.
- `get_current_user`, `get_all_users`, `get_payment_config` and `get_stats` are left out. They only read and serialise.
- The `updated_at` columns are not modelled. They are a database clock side effect.
- `generate_token`, `verify_token`, the pbkdf2 hash, `encrypt_data` and `verify_encrypted_data` are foreign cryptography. They come in as function parameters: `checkPassword`, `decode` and `encrypt`. The random salt and verification token come in as `passwordHash` and `token`.
- Backend.UpdateUser: the end date arrives already parsed, because `datetime.fromisoformat` and the exception on a malformed date are not modelled. A JSON null `subscription_status` is modelled. Other non-string values for it, and non-boolean JSON values for `is_admin` and `is_active`, are not.
- Backend.Register: the request fields are strings. A JSON null `password` makes `len(None)` raise in `validate_password_strength` (app.py:66), which is a 500 reply. A null username or e-mail makes `sanitize_input` return None. Neither case is modelled.
- Validation.CheckPasswordStrength: only the ASCII digits `0`-`9` count as digits. Python's `\d` also matches every other Unicode decimal digit (category Nd). So a password whose only digit is, say, U+0663 is accepted by the source and refused by the model.
- Backend.Refresh and Backend.Authenticate: `user_id` is an integer claim, so a non-integer JSON value in the token is not modelled.
- Backend.Authenticate: `require_auth` does not look at the token's type, so a refresh token is accepted as an access token. The model states this as `Backend.AuthenticateIff` and does not hide it.
- The database's own unique constraints are stated as the `UniqueUsers` invariant. No handler's checks let a commit violate them. The one constraint a commit can still break is the non-null guild owner (app.py:161): deleting a user who owns a guild fails at the commit. The model states that case as the `OwnsGuild` reply, with status 500 from the error handler (app.py:736-740), and leaves the tables unchanged.
- Only the reply of a request is modelled. The text of the Discord messages in `start`, `stop`, `setname`, `status` and `ask` is not, apart from the prompt and the client count.
- The voice commands (`join`, `leave`), gTTS, FFmpeg and `speak_text` are left out. They are audio I/O, and `speak_text` busy-waits on `is_playing()`.
- The game analyser and the audio queue fields of `GuildState` are left out. They are the objects of the analysis and audio modules, which are not part of this model.
- `on_ready`, `on_guild_join` and `shutdown` are left out. They are Discord I/O; their registry effect is the `get_guild_state` already modelled.
- The DM in `get_token` and its `Forbidden` fallback are left out. The token comes in from the relay server's generator as a parameter.
- The relay server's token generation and connection handling are not part of this model. Its tables are input maps.
- The LLM calls are inputs. In `ask`, the model stops at the message list. In the report, the advice is `llmTip`: `None` stands for the failure branch.
- The Riot API requests and the `postgame_analysis` command are left out. They are network I/O.
- The report's `item.json` load is left out; the item-name table is an input. The source calls an un-imported `json` there, so in practice the table is empty; `ItemLabel` covers that case.
- The gold line: `round(goldEarned / 1000, 1)` is float formatting. It comes in as the already formatted `goldShown`.
- The vision tip: the rule `visionScore < minutes * 1.5` is stated over the integers as `2 * visionScore < 3 * minutes`, which is the same test for integer scores.
- The frontend and the payment-provider clients are not part of this model.
