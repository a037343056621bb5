# Gaming-community Discord bot: a Dafny model of its core

This project models the stateful core of a Spanish-language Discord bot for gaming
communities. It covers:

- the SQLite store behind the bot (`database/db_manager.py`);
- XP levels with a cooldown, a level-up bonus and milestone roles;
- a "Zero Coins" economy with daily and work claims, transfers, a coin flip and an admin set-balance;
- Tibia loot-splitting sessions per channel;
- scheduled events and the tick that announces each one in the hour before it starts;
- residential access codes: generation, validation and revocation;
- the looking-for-group validations and autocompletes;
- the game-role panel, and the moderation guards and warnings.

Each source file becomes one Dafny module:

- `store.dfy` (`Store`): the database as a class. `Database` holds the tables as fields.
  - `levels` and `economy` are maps keyed by `(user, guild)`.
  - `user_profiles` is keyed by user alone.
  - `events` and `residential_access_codes` are sequences. The row with id n sits at index n - 1.
  - `warnings` and `access_code_history` are append-only logs.
- `levels.dfy`, `economy.dfy`, `events.dfy`, `residential_access.dfy`: the commands as methods over a `Database`.
  - Each method changes only the tables its `modifies` clause names.
  - Each is proved against functions of the old state.
  - The preserved invariants are that ids follow insertion order, balances stay non-negative, and stored levels agree with the XP curve.
- `tibia.dfy`: the loot-session commands over `SessionStore`, an abstract per-channel session store (see "Left out").
- `helpers.dfy`, `lfg.dfy`, `roles.dfy`, `moderation.dfy`: pure decisions, plus the profile merge and the role panel.
- `text.dfy`: ASCII upper/lower/capitalize, substring, and comma split/join with their round trip.
- `settings.dfy`: the `GAMES` table of `config/settings.py` as constants.
- `wrappers.dfy`: `Option`.

Modelling conventions:

- Time is integer seconds, passed in as `now`.
- Random draws are parameters restricted to their ranges: the XP grant, the work earnings, the coin side and the access-code candidates.
- Discord calls are parameters that give their outcome: whether a role exists or was assigned, whether a send succeeded, and which channels the bot may write in.

In `cogs/levels.py` the class's `__init__` (line 40) is at column 0, so the module as written would not import. The model follows the evidently intended methods.

## Model

| member | source | states |
|---|---|---|
| Store.Database.AddWarning | database/db_manager.py:134-142 | appends exactly one warning; its (user, guild) count rises by one and every other pair's count is unchanged |
| Store.Database.GetWarnings | database/db_manager.py:144-153 | returns exactly the warnings of that (user, guild), as many as the count query gives |
| Store.WarningsOfAppend | database/db_manager.py:134-163 | a new warning extends its own (user, guild) list by itself and leaves every other list as it was |
| Store.Database.UpdateUserGames | database/db_manager.py:167-176 | upsert keyed by user alone: an existing profile gets the new games and time but keeps its guild; otherwise a new row is created |
| Store.Database.CreateEvent | database/db_manager.py:191-201 | appends one event with the next id and notified unset; ids keep following insertion order |
| Store.DueEvents | database/db_manager.py:216-227 | an event is selected iff it is not notified and the time lies in [event_date - 1h, event_date) |
| Store.Database.GetEventsToNotify | database/db_manager.py:216-227 | returns exactly the due events of the table |
| Store.Database.MarkEventNotified | database/db_manager.py:229-236 | sets notified on the row with that id and nothing else; marking an already notified event changes nothing |
| Store.Database.AddXp | database/db_manager.py:240-252 | a missing row becomes xp = amount, level 1, one message; an existing row gains amount XP and one message and keeps its level; only that key changes |
| Store.Database.UpdateLevel | database/db_manager.py:265-272 | sets the level of an existing row only; a missing row stays missing |
| Store.Database.GetBalance | database/db_manager.py:287-295 | 0 without an economy row, else the stored balance |
| Store.Database.AddMoney | database/db_manager.py:297-307 | creates the row with balance = amount or adds amount; the timestamps are untouched |
| Store.Database.RemoveMoney | database/db_manager.py:309-321 | returns false and changes nothing iff the balance is below amount; otherwise an existing row drops by amount |
| Store.Database.UpdateLastDaily | database/db_manager.py:333-343 | stamps last_daily only; a missing row is created with balance 0 |
| Store.Database.UpdateLastWork | database/db_manager.py:355-365 | stamps last_work only; a missing row is created with balance 0 |
| Store.Database.CreateAccessCode | database/db_manager.py:459-481 | appends one active code with the next id, the code upper-cased and no uses |
| Store.FindCode | database/db_manager.py:483-497 | finds the first row of that guild with that code, and finds nothing only when no row matches |
| Store.FindCodeAppend | database/db_manager.py:459-497 | after an insert, a lookup finds the earlier match if there was one, else the new row when it matches |
| Store.Database.GetAccessCodeByCode | database/db_manager.py:483-497 | the found row belongs to the guild and carries the upper-cased argument; None means no row does |
| Store.Database.RevokeAccessCode | database/db_manager.py:527-537 | clears is_active and sets revoked_at on that row and touches nothing else |
| Store.Database.RegisterAccessCodeUse | database/db_manager.py:539-558 | raises that row's use count by exactly one and appends exactly one history row |
| Store.ExpiredCodes | database/db_manager.py:573-586 | selects exactly the guild's active codes whose expiry lies strictly before now |
| Levels.LevelSpan | cogs/levels.py:25-27 | the thresholds 50L + 50 of consecutive levels are always 50 apart |
| Levels.LevelOf | cogs/levels.py:29-34 | 0 iff xp < 100; otherwise xp lies in the band of its level, and that level is the largest whose threshold xp reaches |
| Levels.LevelMonotone | cogs/levels.py:29-34 | more XP never gives a lower level |
| Levels.LevelStableOnBand | cogs/levels.py:29-34 | every XP within a level's band maps to that level |
| Levels.CalculateLevelFromXp | cogs/levels.py:29-34 | the counting loop terminates for every integer and returns the level of the curve |
| Levels.MilestoneRole | cogs/levels.py:18-23 | a role is earned exactly at levels 5, 10, 20 and 50 |
| Levels.OnMessage | cogs/levels.py:44-108 | bots and guildless messages are ignored; within 60 s of the last grant nothing changes; otherwise the grant is stored, and a higher curve level is stored with exactly 100 coins credited once and the daily and work stamps kept; stored levels stay consistent with the curve and balances stay non-negative |
| Levels.Nivel | cogs/levels.py:135-163 | shows the stored level, XP and message count, the XP past the stored level's threshold, and a span of 50 to the next level; the progress is in [0, 50) for a level agreeing with the curve, and negative for a default level-1 row under 100 XP |
| Levels.SetXp | cogs/levels.py:227-249 | afterwards xp is the target and the level is the target's curve level; add_xp's side effects (one more message, a new stamp) remain; only that key changes |
| Economy.CooldownRemaining | cogs/economy.py:66-87 | a wait is reported iff a last claim lies within the cooldown; the wait is positive and ends exactly when the cooldown does |
| Economy.HoursMinutes | cogs/economy.py:74-76 | the hours and minutes shown round the wait down to the minute |
| Economy.MinutesSeconds | cogs/economy.py:117-119 | the minutes and seconds shown add up to the wait exactly |
| Economy.Balance | cogs/economy.py:29-57 | the coins shown are the stored balance, 0 without a row; the level is shown iff a level row exists, and is then the stored level |
| Economy.Daily | cogs/economy.py:60-100 | inside 24 h of the last claim nothing changes; otherwise exactly 100 coins are credited and last_daily is stamped, nothing else |
| Economy.Work | cogs/economy.py:103-163 | inside 1 h of the last claim nothing changes; otherwise the drawn 50..150 coins are credited and last_work is stamped, nothing else |
| Economy.Transfer | cogs/economy.py:166-206 | rejects a bot recipient, then oneself, then an amount <= 0, then a balance below the amount, each with no change; a transfer moves exactly the amount and preserves the sum, crediting only after a successful debit and keeping both rows' daily and work stamps |
| Economy.Coinflip | cogs/economy.py:209-254 | rejects a side other than cara/cruz in any case, then a stake <= 0, then a balance below the stake; a win adds and a loss subtracts the stake; the daily and work stamps are kept; balances never go negative |
| Economy.SetMoneyResult | cogs/economy.py:301-321 | a non-negative target is reached exactly; a negative target leaves a non-negative balance as it was |
| Economy.SetMoney | cogs/economy.py:301-321 | the balance becomes the set-balance result, the daily and work stamps are kept, and no other row changes |
| Tibia.Total | cogs/tibia.py:191 | the sum of positive line values is positive for a non-empty session |
| Tibia.TotalAppend | cogs/tibia.py:130-140 | adding a line raises the total by its value alone, not value times quantity |
| Tibia.PerPerson | cogs/tibia.py:192 | floor division: share * n <= total < (share + 1) * n |
| Tibia.FindActiveIsFirst | cogs/tibia.py:32 | the lookup returns the first active session of the channel |
| Tibia.SessionStore.CreateSession | cogs/tibia.py:46-51 | appends one active session with the next id and no items or participants |
| Tibia.SessionStore.AddParticipant | cogs/tibia.py:53 | records the user once; joining again changes nothing |
| Tibia.SessionStore.AddItem | cogs/tibia.py:130-137 | appends one line to that session only |
| Tibia.SessionStore.CloseSession | cogs/tibia.py:195 | clears that session's active flag only |
| Tibia.Start | cogs/tibia.py:29-60 | refuses when the channel has an active session; otherwise creates one with the creator as its only participant |
| Tibia.Join | cogs/tibia.py:62-90 | fails with no change without an active session; otherwise the user is a participant afterwards |
| Tibia.AddLoot | cogs/tibia.py:97-149 | rejects quantity or value <= 0 before the session lookup, then a missing session; the reported total grows by value |
| Tibia.Split | cogs/tibia.py:151-203 | no session, then no items, then no participants fail and keep the session open; a split gives the floor share of the total and closes the session |
| Tibia.Cancel | cogs/tibia.py:205-242 | only the creator or a holder of manage_messages closes the session; anyone else changes nothing |
| Tibia.Info | cogs/tibia.py:244-289 | reports the total and the floor share, 0 with no participants |
| Events.Evento | cogs/events.py:34-99 | an unparsable date or a date not after now is refused with no change; otherwise one event is stored, not yet notified |
| Events.FirstNamed | cogs/events.py:176-180 | the first channel whose lower-cased name is general, eventos, announcements or anuncios |
| Events.FirstSendable | cogs/events.py:182-187 | the first channel the bot may write in |
| Events.ChosenChannel | cogs/events.py:176-187 | no channel iff no channel has an announcement name and none is writable; an announcement-named channel always wins |
| Events.SelectChannel | cogs/events.py:176-187 | the two early-exit loops choose the rule's channel |
| Events.DeliveredIds | cogs/events.py:166-214 | an id is reported iff its due event had a guild, a chosen channel the bot may write in, and a successful send |
| Events.NotifyTick | cogs/events.py:162-224 | every due event is visited; exactly the delivered ones are marked notified, failures stay unmarked for the next tick, and no other row changes |
| Events.DeliverAll | cogs/events.py:166-220 | visits the due events in order; exactly the delivered ones are marked notified, and their ids are reported in visiting order |
| Events.MarkedNeverDue | cogs/events.py:211-214 | once marked, an event is never due again at any later time |
| ResidentialAccess.GeneratedIsUpper | cogs/residential_access.py:26-33 | a generated code is already upper case, so storing and looking it up do not alter it |
| ResidentialAccess.GenerateAccessCode | cogs/residential_access.py:26-33 | exactly length characters (none for length <= 0), each drawn from A-Z0-9 or from the digits |
| ResidentialAccess.FirstFresh | cogs/residential_access.py:62-65 | the first candidate not yet used in the guild, all earlier ones being taken |
| ResidentialAccess.GenerarCodigo | cogs/residential_access.py:47-110 | stores the first unused candidate with the next id; no earlier code of the guild has that string and a lookup then finds the new row; a temporal code expires after the given hours and a permanent one never does |
| ResidentialAccess.ValidarCodigo | cogs/residential_access.py:119-208 | not found, then revoked, then expired (strictly before now); only a valid code records one use and one history row, and the count shown is the old count plus one |
| ResidentialAccess.RevocarCodigo | cogs/residential_access.py:297-341 | a missing or already revoked code changes nothing; otherwise that code is deactivated with revoked_at = now |
| ResidentialAccess.LookupIgnoresCase | database/db_manager.py:477-494 | two inputs that upper-case alike find the same code |
| ResidentialAccess.LookupOfLower | database/db_manager.py:477-494 | a lower-cased input finds the same code as the input |
| Helpers.TruncateText | utils/helpers.py:117-131 | unchanged when it fits; otherwise a prefix of the text followed by "...", exactly max_length long when max_length >= 3 |
| Helpers.HasPermissions | utils/helpers.py:89-101 | true iff every requested name is a permission the member has; unknown names fail |
| Helpers.HasPermissionsIgnoresValues | utils/helpers.py:89-101 | only the requested names matter, not the values passed |
| Helpers.HasPermissionsEdgeCases | utils/helpers.py:89-101 | an empty request passes; an unknown name fails |
| Lfg.OnlyLolAcceptedAsWritten | cogs/lfg.py:36-37 | the game check as written accepts a game iff it upper-cases to LOL |
| Lfg.AdcRejectedAsWritten | cogs/lfg.py:75 | the LoL role check as written never accepts ADC |
| Lfg.PvpRejectedAsWritten | cogs/lfg.py:128 | the WoW activity check as written never accepts PvP |
| Lfg.OnlyDpsAcceptedAsWritten | cogs/lfg.py:139 | the WoW role check as written accepts a role iff it upper-cases to DPS |
| Lfg.MatchOption | cogs/lfg.py:36-37 | a match is a catalogue option equal to the input up to case; no match means none is |
| Lfg.MatchOptionFinds | cogs/lfg.py:36-37 | any spelling of an option finds that option, provided no earlier option has the same lower-cased spelling |
| Lfg.CorrectedAcceptsWow | cogs/lfg.py:36-37 | the corrected game check accepts WoW and wow |
| Lfg.CorrectedAcceptsAdc | cogs/lfg.py:75 | the corrected role check accepts ADC and adc |
| Lfg.CorrectedAcceptsPvp | cogs/lfg.py:128 | the corrected activity check accepts PvP and pvp |
| Lfg.CorrectedAcceptsTankHealer | cogs/lfg.py:139 | the corrected WoW role check accepts Tank, TANK and Healer |
| Lfg.LfgCommand | cogs/lfg.py:36-58 | an unknown game iff no catalogue key matches up to case; a post names the matching game |
| Lfg.LfgLol | cogs/lfg.py:75-94 | the role is checked first; the rank only when one is given; a post carries the catalogue's spelling of the role and the capitalized rank |
| Lfg.LfgWow | cogs/lfg.py:128-147 | the activity is checked before the role; a post carries the catalogue's spelling of both |
| Lfg.LfgCommandAsWritten | cogs/lfg.py:36-58 | lfg as written posts iff the input upper-cases to LOL, and then posts League of Legends |
| Lfg.LfgLolAsWritten | cogs/lfg.py:75-106 | lfg_lol as written: role before rank, the rank only when given; a post shows both capitalized and never the role ADC |
| Lfg.LfgWowAsWritten | cogs/lfg.py:128-159 | lfg_wow as written: activity before role; a post shows the capitalized activity (Mythic+ verbatim), never PvP, and always the role DPS |
| Lfg.LfgCommandDiverges | cogs/lfg.py:36-58 | WoW is refused as written and posted by the corrected command |
| Lfg.LfgLolDiverges | cogs/lfg.py:75-106 | ADC is refused as written and posted by the corrected command |
| Lfg.LfgWowDiverges | cogs/lfg.py:128-159 | PvP and Tank are refused as written and posted by the corrected command |
| Lfg.Matching | cogs/lfg.py:190-193 | keeps exactly the options containing the lower-cased input, lower-cased |
| Lfg.MatchingAppend | cogs/lfg.py:190-193 | the filter keeps catalogue order |
| Lfg.MatchingEmpty | cogs/lfg.py:190-193 | an empty input keeps every option |
| Lfg.Autocomplete | cogs/lfg.py:183-233 | a prefix of the matching options: all of them when they fit, exactly the first 25 otherwise |
| Lfg.MatchingGames | cogs/lfg.py:169-181 | a game is offered iff the input occurs in its key or its name, ignoring case |
| Lfg.MatchingGamesAppend | cogs/lfg.py:169-181 | the game filter keeps catalogue order |
| Lfg.MatchingGamesEmpty | cogs/lfg.py:169-181 | an empty input offers every game, in catalogue order |
| Lfg.GameAutocomplete | cogs/lfg.py:169-181 | at most 25 games, exactly the matching games, and for an empty input every game in catalogue order |
| Roles.BuildRoleView | cogs/roles.py:96-104 | one button per game in catalogue order, labelled with the key and with custom id "role_" + key |
| Roles.CustomIdsDistinct | cogs/roles.py:20-26 | the panel's custom ids are pairwise distinct |
| Roles.RoleClick | cogs/roles.py:29-93 | holding the role removes it and leaves the profile untouched; the profile is written only after a successful assign, with the merged list |
| Roles.MergeRoundTrip | cogs/roles.py:69-77 | reading back the written list gives the earlier entries in order, then the game only if it was absent; a missing or empty profile reads as an empty list |
| Roles.MergeIdempotent | cogs/roles.py:69-77 | assigning a game twice stores the same list as assigning it once |
| Moderation.FirstFailure | cogs/moderation.py:44-74 | an if-chain of guards rejects with the first guard that fails, and passes iff all pass |
| Moderation.KickDecision | cogs/moderation.py:44-88 | acts iff the issuer may kick, the target is not the owner and the target's top role is strictly below the issuer's |
| Moderation.KickFollowsGuardOrder | cogs/moderation.py:44-74 | kick rejects with the first failing guard of permission, owner, hierarchy, in that order |
| Moderation.BanDecision | cogs/moderation.py:140-198 | acts iff the kick conditions hold for ban_members and the delete days lie in [0, 7] |
| Moderation.BanFollowsGuardOrder | cogs/moderation.py:140-181 | ban checks the same three guards in the same order, then the delete-days range |
| Moderation.BanExtendsKick | cogs/moderation.py:140-181 | with permitted delete days, ban decides exactly as kick does |
| Moderation.DeleteDaysCheckedLast | cogs/moderation.py:173-181 | a bad delete-days value is reported only when every earlier guard passed |
| Moderation.HierarchyAntisymmetric | cogs/moderation.py:66-74 | of two members, at most one may kick the other; an equal rank may not be kicked |
| Moderation.OwnerIsProtected | cogs/moderation.py:55-63 | the guild owner can never be kicked or banned |
| Moderation.ClearDecision | cogs/moderation.py:372-395 | acts iff manage_messages and 1 <= amount <= 100, permission checked first |
| Moderation.MuteDecision | cogs/moderation.py:442-470 | acts iff moderate_members and 1 <= minutes <= 40320 (28 days), permission checked first |
| Moderation.DefaultMuteAccepted | cogs/moderation.py:442 | the default of 10 minutes is accepted |
| Moderation.Warn | cogs/moderation.py:249-269 | without moderate_members nothing is stored; otherwise one warning is stored and the count reported is the count after the insert |
| Moderation.WarningsPage | cogs/moderation.py:323-351 | no warnings gives the empty notice; otherwise the total, the first ten numbered from 1, and a footer iff more than ten exist |
| Moderation.ListingAfterWarn | cogs/moderation.py:321-340 | right after a warn, the listing counts it and shows it first |
| Text.SplitJoin | cogs/roles.py:70-76 | splitting a comma-joined list of comma-free entries gives the entries back |
| Text.UpperIdempotent | database/db_manager.py:477-494 | upper-casing twice is upper-casing once |

## Left out

- Discord I/O is parameters or is left out: messages, embeds, DMs, role creation and assignment, kick, ban, purge and timeout, the log channel, and `get_guild`/`get_member`. Their results are parameters: `roleAvailable`, `assignOk`, `removeOk`, `sendOk` and `botCanSend`, and the permission booleans of the commands that check a permission in their body.
- SQL text, aiosqlite connections and `initialize` are left out; the tables are kept as values.
- The timezone mismatch is not modelled: SQLite's `datetime('now')` is UTC while the cogs compare with naive local time. All time is one integer clock.
- The floating-point progress bar and percentage of `nivel` and the hours-left displays of the access codes are not modelled.
- The sequential model treats each command as one step, so the check-then-write race in `remove_money` and the separate credit and stamp of `daily`/`work` are not modelled.
- The unparsable-timestamp paths are folded into "no cooldown". A stored stamp is either an integer or absent.
- The loop of the event notifier is not modelled: its five-minute period, its wait for the bot to be ready and its cancel on unload. One `NotifyTick` is one iteration. An exception while handling one event appears as `sendOk` missing that event; an exception in the outer query is not modelled.
- Case mapping is ASCII only. `Upper`, `Lower` and `Capitalize` leave other characters (the "é" of PokéXGames) as they are, where Python would map them.
- The leaderboards (`ranking`, `leaderboard`) and the loot table queries `add_tibia_loot`, `get_user_loots`, `get_boss_stats`, `get_top_loots` and `get_total_loot_value` are SQL ordering and aggregation for display only.
- `eventos`, `get_upcoming_events`, `listar_codigos`, `historial_codigo`, `get_active_access_codes`, `get_access_code_history` and `get_access_code_stats` list and format rows and change nothing.
- `crear_roles` and the `/roles` embed are left out. Whether a role counts as created or existing depends on Discord's role cache.
- The `lfg` embeds and role mentions are left out. Only the decision, and the role that would be mentioned, are modelled.
- The loot-session store that `cogs/tibia.py` calls is not defined in `database/db_manager.py`. `Tibia.SessionStore` assumes four things, none of which the source shows:
  - ids are allocated 1, 2, …;
  - each user is a participant at most once, and joining again changes nothing;
  - items keep insertion order;
  - closing only clears the active flag.
- Tibia.SessionStore.CreateSession: requires the channel to have no active session. `tibia_loot_start` checks this before calling it, which keeps at most one active session per channel.
- ResidentialAccess.GenerarCodigo: the source redraws without bound. The model takes a finite sequence of candidates and reports `NoFreshDraw` when every candidate is taken. The `administrator` gate of `generar_codigo` (cogs/residential_access.py:46) is not modelled, as for `Economy.SetMoney`.
- Moderation.KickDecision: a top role is one integer rank. discord.py's tie-break between roles of equal position is folded into that rank.
- Moderation.WarningsPage: the "newest first" order of `get_warnings` is read as reverse insertion order. SQL leaves the order of equal timestamps unspecified.
- Lfg.LfgCommand: decides with the corrected check `Lfg.MatchOption`, so it posts for WoW, Minecraft, Tibia and PokéXGames, which `cogs/lfg.py:36-37` refuses; `Lfg.LfgCommandAsWritten` models the command as written.
- Lfg.LfgLol: decides the role with `Lfg.MatchOption`, so it accepts ADC, which `cogs/lfg.py:75` refuses, and posts the catalogue's spelling instead of the capitalized input; `Lfg.LfgLolAsWritten` models the command as written.
- Lfg.LfgWow: decides with `Lfg.MatchOption`, so it accepts PvP, Tank and Healer, which `cogs/lfg.py:128` and `:139` refuse, and posts the catalogue's spelling instead of the capitalized and upper-cased input; `Lfg.LfgWowAsWritten` models the command as written.
- Economy.SetMoney: the `administrator` gate of `setmoney` (cogs/economy.py:300) is a discord.py check that runs before the command body. The model has no parameter for it and no refusal path, and describes the command once that check has passed.
- Levels.SetXp: the `administrator` gate of `setxp` (cogs/levels.py:226) is not modelled, for the same reason.
- ResidentialAccess.RevocarCodigo: the `administrator` gate of `revocar_codigo` (cogs/residential_access.py:296) is not modelled, for the same reason.
- Levels.Nivel: the stored level is used as the source does, so the progress for a default level-1 row under 100 XP is negative, not corrected.

## Findings

| source | as written | input that shows it | evidently intended | confidence | as-written member | corrected member |
|---|---|---|---|---|---|---|
| cogs/lfg.py:36-37 | `juego.upper()` must be a key of GAMES | `juego = "WoW"` (also Minecraft, Tibia, PokéXGames): the upper-cased "WOW" is not a key | accept any catalogue game, as the autocomplete offers them | not executed | Lfg.OnlyLolAcceptedAsWritten | Lfg.CorrectedAcceptsWow |
| cogs/lfg.py:75 | `rol.capitalize()` must be a LoL role | `rol = "ADC"`: capitalize gives "Adc" | accept ADC, which the role autocomplete offers | not executed | Lfg.AdcRejectedAsWritten | Lfg.CorrectedAcceptsAdc |
| cogs/lfg.py:128 | `tipo.capitalize()` must be a WoW type, or `tipo` exactly "Mythic+" | `tipo = "PvP"`: capitalize gives "Pvp" | accept PvP, which the activity autocomplete offers | not executed | Lfg.PvpRejectedAsWritten | Lfg.CorrectedAcceptsPvp |
| cogs/lfg.py:139 | `rol.upper()` must be a WoW role | `rol = "Tank"`: upper gives "TANK", and the roles are Tank, Healer, DPS | accept Tank and Healer | not executed | Lfg.OnlyDpsAcceptedAsWritten | Lfg.CorrectedAcceptsTankHealer |

The commands `Lfg.LfgCommand`, `Lfg.LfgLol` and `Lfg.LfgWow` use the corrected check `Lfg.MatchOption`. It matches the input against the catalogue up to case and returns the catalogue's own spelling. The commands as written are `Lfg.LfgCommandAsWritten`, `Lfg.LfgLolAsWritten` and `Lfg.LfgWowAsWritten`. `Lfg.LfgCommandDiverges`, `Lfg.LfgLolDiverges` and `Lfg.LfgWowDiverges` exhibit, for each command, an input the autocomplete offers that the command as written refuses and the corrected command posts.
