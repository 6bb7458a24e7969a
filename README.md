# telegram-bot-base in Dafny

This project models the core of telegram-bot-base, a modular Telegram bot. It
has two halves.

**The main bot:**
- The command template: per-user sessions, action and text-handler maps, and a middleware list.
- The command manager, with a registry in insertion order and the merged, namespaced action and text-handler maps.
- The dispatcher in `bot.js`:
  - callback routing by key or `key_` prefix, where the first match wins;
  - free-text routing through the commands that hold an active session;
  - the anti-link warn counter, which kicks on the third link;
  - creation of the four data files.
- The commands `tebak` (a number-guessing game), `setnamebot`, `test`, `help` and `menu`.

**The tenant ("mirror") half:**
- The supervisor in `commands/owner/mirror.js`:
  - the registry of tenants and the set of running tenant processes;
  - default data setup;
  - the three-step creation wizard and its session sweep;
  - toggle, reset, delete, start-all, stop-all and auto-start.
- The tenant security middleware: the command blocklist, a fixed-window rate limiter and the stats update.
- The tenant-side owner and premium lists, the bot-info fields and the uptime text in `mirror_bot.js`.

**How it is modelled:**
- A JavaScript `Map` is `OrderedMap.OMap`, a sequence of key/value pairs with unique keys.
  - `Set` on a present key replaces the value in place; a new key is appended.
  - This matches `Map.set`, so insertion order, the "first match wins" scans and the collision rule of the merged maps are modelled exactly.
- Objects whose fields the source mutates are classes:
  - `CommandTemplate.Command` and `CommandManager.Manager`;
  - one class per command, each holding its template as `base`;
  - `Bot.Store`, `MirrorBot.TenantStore`, `MirrorSecurity.Security` and `MirrorSupervisor.Supervisor`.
- Each method is proved against a function on values, and the properties are proved about those functions.
- Data files are a map from file name to parsed content.
- Running processes are a set of tenant ids.
- Outside inputs become parameters:
  - clocks, random numbers and session ids;
  - the outcome of starting a process, killing one or writing a file;
  - the result a handler returns.
- `String.prototype.trim`, `split`, `join` and `includes`, and `parseInt`, are written out in `Strings`. They work on code points.
- `parseInt` covers the sign, the `0x` prefix and the longest digit run.

**Where the documentation and the code disagree, the model follows the code:**
- **Callback matching.** A callback matches key `k` only when it equals `k` or starts with `k + "_"` (`bot.js:70`). So `menu_infoo` does not match `menu_info` (`Bot.MatchExamples`).
- **Wizard checks.** The wizard's bot name needs at least 3 characters and has no upper bound. The owner id is refused only when `parseInt` finds no number, so 0 and negative ids pass (`commands/owner/mirror.js:204-226`).
- **Blocked commands.** The blocklist takes the first token of the text and drops its first character whether or not that character is `/`.
  - So the plain text `xeval` is blocked (`MirrorSecurity.PlainTextBlocked`).
  - `/eval@somebot` is not blocked (`MirrorSecurity.NotBlockedAddressed`).
- **Rate limit.** The tenant's `rateLimitPerMinute` is stored but never read; the limit is the constant 30.

## Model

| member | source | states |
|---|---|---|
| CommandTemplate.BaseExecute | utils/commandTemplate.js:80-82 | the template's own execute always throws |
| CommandTemplate.Command.constructor | utils/commandTemplate.js:5-12 | a fresh command keeps its name and description and has no sessions, actions, handlers or middleware |
| CommandTemplate.Command.Plain | commands/owner/mirror.js:13-16 | a registered module object that is not built on the template: name and description only, none of the template's maps |
| CommandTemplate.Command.GetSession | utils/commandTemplate.js:24-26 | a session is returned iff the user has an active session (`hasActiveSession`), and it is the stored payload |
| CommandTemplate.Command.SetSession | utils/commandTemplate.js:17-19 | afterwards the user has an active session holding the new payload; re-setting keeps one entry; every other user's session and the other fields are unchanged |
| CommandTemplate.Command.ClearSession | utils/commandTemplate.js:31-33 | afterwards the user has no session; other users are untouched; clearing an absent user changes nothing |
| CommandTemplate.Command.AddAction | utils/commandTemplate.js:38-40 | the action map is `Map.set` of the old one: an existing name is replaced in place, a new one appended; keys stay unique |
| CommandTemplate.Command.AddTextHandler | utils/commandTemplate.js:45-47 | the same replace-in-place rule for text handlers |
| CommandTemplate.Command.AddMiddleware | utils/commandTemplate.js:52-54 | middleware is appended, so its order is the call order |
| OrderedMap.SetSpec | utils/commandTemplate.js:38-40 | after `set(k, v)`, `get(k)` is `v`, every other key reads as before, a new key goes to the end, an old key keeps its place, keys stay unique |
| OrderedMap.DeleteSpec | utils/commandTemplate.js:31-33 | after `delete(k)` the key is gone, every other key reads as before, the order of the rest is kept, deleting an absent key changes nothing |
| OrderedMap.SetAllGet | utils/commandManager.js:125-144 | after a run of `set`s, a key reads as the last value written to it, or as before if none was |
| OrderedMap.SetAllKeys | utils/commandManager.js:125-144 | a run of `set`s keeps the existing keys first and in order, keeps keys unique, and contains every written key |
| CommandManager.Manager.constructor | utils/commandManager.js:9-14 | a fresh manager has no commands, global actions, global handlers or middleware |
| CommandManager.Manager.GetCommand | utils/commandManager.js:27-29 | a command is returned iff one is registered under the name, and its name is that name |
| CommandManager.Manager.RegisterCommand | utils/commandManager.js:19-22 | the name now gives this command (last wins); other names are unchanged; the registry grows by one only for a new name; a replaced name keeps its place |
| CommandManager.Manager.RegisterGlobalAction | utils/commandManager.js:41-44 | the global action map is `set` with the name; other entries and the other fields are unchanged |
| CommandManager.Manager.RegisterGlobalHandler | utils/commandManager.js:49-52 | the same for the global text-handler map |
| CommandManager.Manager.AddGlobalMiddleware | utils/commandManager.js:57-59 | global middleware is appended in call order |
| CommandManager.Manager.GetCommandsWithActiveSession | utils/commandManager.js:112-120 | the result lists, in registry order, exactly the registered commands that have `hasActiveSession` and report true for the user |
| CommandManager.WithSessionMembers | utils/commandManager.js:112-120 | every listed command is registered and active for the user, every registered active command is listed, and the list is no longer than the registry |
| CommandManager.CommandWrites | utils/commandManager.js:137-139 | a command's entries are written under `name + "_" + id`, one per entry, in the command's order |
| CommandManager.SetEach | utils/commandManager.js:129-131 | the copy loop performs the `set`s of its pairs in order |
| CommandManager.MergeTables | utils/commandManager.js:125-144 | the merged map is the globals set first, then every command's namespaced entries, command after command |
| CommandManager.Manager.Merge | utils/commandManager.js:125-168 | merging reads each registered command's table; a module that is not built on the template contributes nothing |
| CommandManager.Manager.GetAllActions | utils/commandManager.js:125-144 | `getAllActions` is the merged map of the global actions and the namespaced command actions |
| CommandManager.Manager.GetAllHandlers | utils/commandManager.js:149-168 | `getAllHandlers` follows the same namespacing and ordering rule for text handlers |
| CommandManager.GlobalsFirst | utils/commandManager.js:128-131 | the merged map starts with the global keys in their order, and its keys are unique |
| CommandManager.MergedValue | utils/commandManager.js:129-140 | a key reads as the last command write to it, otherwise as the global; on a collision the command's handler wins, and the entry keeps the global's place |
| CommandManager.MergedHasCommandEntry | utils/commandManager.js:134-141 | every entry of every template command is reachable under `name + "_" + id` |
| CommandManager.NamespacedHas | utils/commandManager.js:134-141 | every command entry appears among the namespaced writes |
| Bot.MatchesShape | bot.js:70 | callback data matches key `k` iff it equals `k` or is `k + "_" + rest` |
| Bot.MatchExamples | bot.js:70 | `menu_info_x` matches `menu_info`; `menu_infoo` does not |
| Bot.NoMatchAt | bot.js:70 | data that differs from a key inside the key's length matches neither form |
| Bot.DispatchCallback | bot.js:62-87 | only the first matching key in map order runs; a throwing handler gets the error acknowledgement and stops the scan; with no match the "not found" acknowledgement is sent exactly once and nothing runs |
| Bot.RouteText | bot.js:90-124 | text whose trimmed form starts with "/" bypasses routing; otherwise the message is claimed by the first handler in the first active command, in order, that returns exactly true, or passes on when none does |
| Bot.ScanHandlers | bot.js:103-119 | the scan over the active commands' handler maps returns the first claim in (command, handler) order, or that nobody claims |
| Bot.FirstClaim | bot.js:106-116 | the inner loop stops at the first handler returning true; every earlier handler did not (thrown or not true) |
| Bot.FindLink | bot.js:138-141 | a link is found iff some position starts `http://` or `https://` followed by a non-space, after lower-casing |
| Bot.Warn | bot.js:155-172 | the (chat, user) count rises by one; below 3 it is kept and reported; at 3 or more the user is kicked and the entry deleted (kept if the kick fails); other users and chats are unchanged |
| Bot.WarnStaysBelowThree | bot.js:162-170 | if every stored count is below 3, it stays so after a warn: a count that reaches 3 is deleted |
| Bot.ThirdLinkKicks | bot.js:155-172 | from no warns, the first two links warn with counts 1 and 2 and the third kicks |
| Bot.Store.Init | bot.js:14-34 | startup writes exactly the missing data files with their defaults, leaving present files alone, and all four then exist |
| Bot.Store.OnMessage | bot.js:136-181 | no text or no link, an admin sender, or a failed delete leave the warns untouched; otherwise the warns file becomes the `Warn` update |
| DataFiles.BotDefaults | bot.js:22-30 | the main bot's defaults cover all four files |
| DataFiles.MirrorDefaults | commands/owner/mirror.js:37-46 | a tenant's defaults cover all four files |
| DataFiles.FillFilesSpec | bot.js:22-34 | creating defaults adds exactly the missing listed files with their defaults and keeps every present file as it was |
| DataFiles.FillFilesIdempotent | commands/owner/mirror.js:48-53 | creating the defaults twice is the same as once |
| DataFiles.CreateMissing | bot.js:22-34 | the loop writes the missing files, and reports exactly those, each once |
| DataFiles.IdsOf | mirror_bot.js:124-129 | a missing list file reads as the empty list |
| DataFiles.WarnsOf | bot.js:149-153 | a missing warns file reads as the empty table |
| Help.ShownDescription | commands/help.js:52 | a missing description shows as a fixed non-empty text; a present one is shown as is |
| Help.InCategoryMembers | commands/help.js:35-45 | a category holds exactly the commands assigned to it, in registry order |
| Help.PartitionCount | commands/help.js:35-45 | each command falls into exactly one of the four categories |
| Help.AddOwnerIsOwner | commands/help.js:40-41 | a name containing "owner" goes to Owner |
| Help.DelPremIsOwner | commands/help.js:40-41 | a name containing "prem" goes to Owner |
| Help.AdminByLetters | commands/help.js:42-44 | a name that is not general or game and contains neither "owner" nor "prem" goes to Admin |
| Help.SetNameBotIsAdmin | commands/help.js:42-44 | `setnamebot` goes to Admin |
| Help.ListingShape | commands/help.js:48-57 | sections come in the fixed category order, none is empty, each holds exactly its category's commands, and a category has a section iff it is non-empty |
| Help.SectionsContent | commands/help.js:48-57 | each printed section holds exactly its category's commands, in order |
| Help.SectionsOrdered | commands/help.js:28-33 | sections appear in the fixed order General, Game, Admin, Owner |
| Help.SectionsCover | commands/help.js:48-49 | a category is printed iff it is non-empty |
| Help.SortIntoCategories | commands/help.js:35-45 | the categorising loop fills each category with exactly its commands, in order |
| Help.NonEmptySections | commands/help.js:48-57 | the printing loop keeps the non-empty categories in the fixed order |
| Help.ShowCommandList | commands/help.js:18-62 | the reply is the categorised listing |
| Help.ShowCommandDetail | commands/help.js:64-92 | the first "/" is removed from the name; an unknown name gives the not-found reply; otherwise the three feature flags are set iff the command is a template command, has actions, and has handlers |
| Help.Execute | commands/help.js:8-16 | with more than one argument the detail of the second is shown, otherwise the list |
| Menu.Namespace | utils/commandManager.js:138 | the engine keys of a command's ids are `name + "_" + id`, one per id |
| Menu.MenuIdsDistinct | commands/menu.js:11-51 | the five registered action ids are distinct |
| Menu.MenuKeySelectsOnlyItself | bot.js:69-70 | `menu_` + a registered id matches exactly its own engine key among all keys of the bot |
| Menu.MenuKeyAgainstMenu | bot.js:70 | `menu_` + id i matches the menu's engine key j iff i = j |
| Menu.MenuKeyAgainstTest | bot.js:70 | no menu key matches a key of the test command |
| Menu.MainMenuRoutes | commands/menu.js:67-71 | the main-menu buttons `menu_info`, `menu_game`, `menu_settings` route to exactly the info, game and settings actions |
| Menu.GameMenuAsWrittenUnrouted | commands/menu.js:22-23 | the game submenu's buttons `tebak_game` and `menu_main` (and the settings back button, line 35) match no engine key |
| Menu.GameMenuRoutes | commands/menu.js:22-23 | with the `menu_` prefix the submenu buttons route to the tebak_game and menu_main actions, and the settings back button is the game submenu's |
| Menu.MenuCommand.constructor | commands/menu.js:4-55 | the menu registers the five actions in order and nothing else |
| Menu.MenuCommand.ShowMainMenu | commands/menu.js:61-81 | the main keyboard is shown, by editing when called from a callback and by replying otherwise |
| Menu.MenuCommand.Execute | commands/menu.js:57-59 | execute shows the main menu |
| Menu.MenuCommand.OnGame | commands/menu.js:17-27 | the game action edits in the game submenu with its buttons as written, `tebak_game` and `menu_main`, neither of which selects an action key |
| Menu.MenuCommand.OnSettings | commands/menu.js:30-39 | the settings action edits in the settings submenu with its back button as written, `menu_main`, which selects no action key |
| Menu.MenuCommand.OnMenuMain | commands/menu.js:51-54 | the back action edits in the main menu |
| Menu.MenuCommand.OnTebakGame | commands/menu.js:42-48 | without a message on the update (a button press) the action throws at the assignment and the tebak sessions are unchanged; with one it runs execute with `/tebak`, that is, a start |
| Menu.MenuCommand.OnTebakGameIntended | commands/menu.js:46-47 | run as intended, the action is tebak's execute with `/tebak`: a start, or nothing new when a game is running |
| Tebak.StartSpec | commands/tebak.js:47-61 | with no session a game {target, 3 attempts} is stored for the user only; with a session nothing changes |
| Tebak.GuessSpec | commands/tebak.js:63-83 | no session: "not started", nothing created; a hit clears the session; a miss decrements the attempts by exactly one and keeps the session iff attempts remain |
| Tebak.InvalidGuessUntouched | commands/tebak.js:19-42 | a NaN or out-of-range guess, as an argument or as text, leaves the sessions unchanged |
| Tebak.NumberInputClaims | commands/tebak.js:11-27 | the handler declines iff the user has no session, and then changes nothing |
| Tebak.GamesStayValid | commands/tebak.js:47-83 | every stored game keeps a target in [1,10] and 1..3 attempts across start, guess, execute and the text handler |
| Tebak.StartKeepsGames | commands/tebak.js:54-58 | a started game is well-formed |
| Tebak.GuessKeepsGames | commands/tebak.js:70-82 | a guess keeps the stored games well-formed |
| Tebak.AcceptedAtMost | commands/tebak.js:63-83 | a game accepts at most 3 guesses |
| Tebak.AllMissesUseAll | commands/tebak.js:76-82 | a game of misses accepts exactly the first 3 guesses |
| Tebak.HitEnds | commands/tebak.js:73-75 | a game ends at the first hit within the attempts |
| Tebak.TebakCommand.constructor | commands/tebak.js:4-28 | tebak registers one text handler, `number_input` |
| Tebak.TebakCommand.StartGame | commands/tebak.js:47-61 | startGame is the start rule on the session map |
| Tebak.TebakCommand.HandleGuess | commands/tebak.js:63-83 | handleGuess is the guess rule on the session map |
| Tebak.TebakCommand.Execute | commands/tebak.js:30-45 | no argument starts a game; an invalid argument is refused; a valid one is a guess |
| Tebak.TebakCommand.OnNumberInput | commands/tebak.js:11-27 | the text handler declines without a session, refuses invalid numbers and otherwise guesses, claiming the message |
| SetNameBot.RenameSpec | commands/setnamebot.js:64-84 | a name is accepted iff its length is 3 to 50; then only the bot name changes (if the write succeeds) |
| SetNameBot.ExecuteSpec | commands/setnamebot.js:49-62 | with arguments the space-joined rest is renamed and the session untouched; without, the user's session becomes "setting_bot_name" |
| SetNameBot.NameInputSpec | commands/setnamebot.js:14-46 | the handler declines without a session; a bad length is claimed and keeps the session; a successful rename clears it, a failed write keeps it |
| SetNameBot.SetNameBotCommand.constructor | commands/setnamebot.js:6-10 | the owner-only middleware is the only middleware, and `bot_name_input` the only handler |
| SetNameBot.SetNameBotCommand.SetBotName | commands/setnamebot.js:64-84 | setBotName is the rename rule on the data files |
| SetNameBot.SetNameBotCommand.Execute | commands/setnamebot.js:49-62 | execute is the execute rule on sessions and files |
| SetNameBot.SetNameBotCommand.OnBotNameInput | commands/setnamebot.js:14-46 | the text handler is the name-input rule |
| TestCommand.TextInputSpec | commands/test.js:30-47 | the handler declines without a session or with another action; a waiting session is echoed and cleared |
| TestCommand.InputThenEcho | commands/test.js:18-47 | after the input_text action, the next text is echoed and the session cleared |
| TestCommand.MenuButtonsRoute | commands/test.js:70-71 | the test menu's buttons are `test_` + the registered ids |
| TestCommand.TestCmd.constructor | commands/test.js:4-8 | test registers two actions and one text handler |
| TestCommand.TestCmd.OnInputText | commands/test.js:18-25 | the action sets the user's session to "waiting_text_input" |
| TestCommand.TestCmd.OnTextInput | commands/test.js:30-47 | the text handler is the text-input rule |
| TestCommand.TestCmd.Execute | commands/test.js:50-62 | with an argument the text after the first space is shown; otherwise the test menu |
| MirrorSecurity.CommandNameOf | middlewares/mirrorSecurity.js:10 | the command of `/name rest` is `name` |
| MirrorSecurity.CommandNameDropsFirstChar | middlewares/mirrorSecurity.js:10 | any one-character prefix is dropped, not only "/" |
| MirrorSecurity.BlockedIff | middlewares/mirrorSecurity.js:19 | `/name ...` is blocked iff `name` is one of the nine dangerous names |
| MirrorSecurity.BlockedExamples | middlewares/mirrorSecurity.js:4 | `/mirror` and `/eval x` are blocked |
| MirrorSecurity.NotBlockedLonger | middlewares/mirrorSecurity.js:19 | `/mirrorinfo` and a message without text are not blocked |
| MirrorSecurity.NotBlockedAddressed | middlewares/mirrorSecurity.js:10-19 | `/eval@somebot` is not blocked |
| MirrorSecurity.PlainTextBlocked | middlewares/mirrorSecurity.js:10 | the plain text `xeval` is blocked |
| MirrorSecurity.LongNamesAreSafe | middlewares/mirrorSecurity.js:4 | no name longer than 8 characters is blocked |
| MirrorSecurity.CeilSeconds | middlewares/mirrorSecurity.js:61 | the wait is the ceiling of the milliseconds over 1000 |
| MirrorSecurity.RateBounds | middlewares/mirrorSecurity.js:54-65 | an admitted event leaves a count in 1..30; an event is refused iff it is within the window at the limit; the wait is 0..60 seconds |
| MirrorSecurity.WindowLimit | middlewares/mirrorSecurity.js:57-65 | within one window at most 30 − count more events pass |
| MirrorSecurity.FirstWindowLimit | middlewares/mirrorSecurity.js:66-67 | from a first event, at most 30 events pass in its window |
| MirrorSecurity.RateKeysDistinct | middlewares/mirrorSecurity.js:50 | different users of one tenant have different rate keys |
| MirrorSecurity.Touch | middlewares/mirrorSecurity.js:75-80 | the count rises by one, the last activity is now, the user is added only if absent (keeping the list duplicate-free and in order) |
| MirrorSecurity.RecordActivitySpec | middlewares/mirrorSecurity.js:70-87 | only the tenant's own entry changes, by `Touch`; a missing entry or a failed write leaves the registry as it was |
| MirrorSecurity.WriteActivity | middlewares/mirrorSecurity.js:70-87 | the stats step is the activity rule |
| MirrorSecurity.Security.Handle | middlewares/mirrorSecurity.js:8-90 | no config: refused, nothing changes; blocked: one audit record, no rate or stats change; otherwise the rate rule decides, and only a pass updates stats and calls next |
| MirrorWizard.CheckToken | commands/owner/mirror.js:185 | a token is accepted iff it is 8 to 10 digits, a colon and 35 characters from `[a-zA-Z0-9_-]` |
| MirrorWizard.NewSession | commands/owner/mirror.js:142-146 | a new session awaits the token for that user |
| MirrorWizard.AdvanceSpec | commands/owner/mirror.js:184-226 | token, owner id and name steps advance in order; the owner id is refused only when it is not a number; the name is refused iff shorter than 3; the completed result carries all three inputs |
| MirrorWizard.ThreeStepsComplete | commands/owner/mirror.js:184-254 | three valid inputs take a new session to completion |
| MirrorWizard.FirstSessionOf | commands/owner/mirror.js:171-176 | the lookup finds the first session of the user in map order, or none |
| MirrorWizard.UnexpiredMembers | commands/owner/mirror.js:622-626 | the sweep keeps exactly the sessions no older than 1800000 ms |
| MirrorWizard.UnexpiredUnique | commands/owner/mirror.js:622-626 | the sweep keeps session ids unique |
| MirrorWizard.SweepIdempotent | commands/owner/mirror.js:620-627 | sweeping twice at one time is sweeping once |
| MirrorSupervisor.SetupDirSpec | commands/owner/mirror.js:30-56 | setup leaves all four files present, keeps existing files, seeds owners with `[ownerId]` only when missing, and is idempotent |
| MirrorSupervisor.SetupFromNothing | commands/owner/mirror.js:37-53 | a new tenant's directory is exactly its defaults |
| MirrorSupervisor.ResetDirs | commands/owner/mirror.js:421-426 | deleting and setting up a directory gives exactly the defaults, and the setup repeated by the restart changes nothing |
| MirrorSupervisor.PendingMembers | commands/owner/mirror.js:458-459 | start-all visits exactly the registered tenants that are not running |
| MirrorSupervisor.SetupAllSpec | commands/owner/mirror.js:458-467 | each visited tenant's directory is set up |
| MirrorSupervisor.ConfigAllSpec | commands/owner/mirror.js:66-76 | each visited tenant gets its config, and others keep theirs |
| MirrorSupervisor.AppendEffects | commands/owner/mirror.js:458-467 | one more attempt adds its setup, its config, its id if started, and one to the count if started |
| MirrorSupervisor.Supervisor.SetupMirrorData | commands/owner/mirror.js:30-56 | only the tenant's directory changes, to the setup result |
| MirrorSupervisor.Supervisor.StartMirror | commands/owner/mirror.js:58-107 | a running id is refused and nothing changes; otherwise data and config are written and the id runs iff the spawn succeeds |
| MirrorSupervisor.Supervisor.ProcessExited | commands/owner/mirror.js:88-91 | an exited process leaves the running set |
| MirrorSupervisor.Supervisor.FindSession | commands/owner/mirror.js:171-176 | the loop finds the user's first session |
| MirrorSupervisor.Supervisor.CreateSession | commands/owner/mirror.js:140-146 | a new session awaiting the token is stored under the id |
| MirrorSupervisor.Supervisor.Cancel | commands/owner/mirror.js:562-571 | only the user's first session is deleted, if any |
| MirrorSupervisor.Supervisor.WizardText | commands/owner/mirror.js:167-279 | no session passes on; invalid input keeps the session; a valid step advances it; a completed wizard creates the tenant |
| MirrorSupervisor.Supervisor.CreateMirror | commands/owner/mirror.js:228-256 | exactly one registry entry is written, the session deleted and a start attempted |
| MirrorSupervisor.Supervisor.RecordMirror | commands/owner/mirror.js:228-252 | the registry gains the entry and the session is deleted; nothing else changes |
| MirrorSupervisor.Supervisor.Toggle | commands/owner/mirror.js:377-403 | unknown id: nothing; running: stopped and removed; otherwise a start is attempted |
| MirrorSupervisor.Supervisor.Reset | commands/owner/mirror.js:405-450 | unknown id: nothing; otherwise stopped, data recreated from defaults, stats zeroed, and restarted |
| MirrorSupervisor.Supervisor.Remove | commands/owner/mirror.js:530-560 | the registry entry, running id, data directory and config are all removed |
| MirrorSupervisor.Supervisor.StartAll | commands/owner/mirror.js:452-473 | only non-running tenants are tried; started counts the successes and started + failed = their number |
| MirrorSupervisor.Supervisor.StartAllStep | commands/owner/mirror.js:459-466 | one tenant is tried iff not running, and the tallies follow |
| MirrorSupervisor.Supervisor.AutoStart | commands/owner/mirror.js:604-618 | auto-start tries every tenant and counts the successes |
| MirrorSupervisor.Supervisor.AutoStartStep | commands/owner/mirror.js:608-613 | one auto-start attempt and its tally |
| MirrorSupervisor.Supervisor.StopAll | commands/owner/mirror.js:475-489 | every running process is killed, the running set is emptied, stopped counts the successful kills |
| MirrorSupervisor.CountKills | commands/owner/mirror.js:478-485 | the stop loop counts exactly the kills that succeed |
| MirrorSupervisor.Supervisor.Sweep | commands/owner/mirror.js:620-627 | the sweep deletes exactly the expired sessions |
| MirrorSupervisor.SweepSessions | commands/owner/mirror.js:622-626 | the delete-while-iterating loop keeps exactly the unexpired sessions, in order |
| MirrorBot.AccessFacts | mirror_bot.js:30-71 | owners pass the premium check; missing files admit nobody; in fresh defaults only the owner passes either check |
| MirrorBot.ListsDisjoint | mirror_bot.js:75-93 | no dangerous name is an owner-admin name |
| MirrorBot.LoadMirrorCommands | mirror_bot.js:73-105 | dangerous modules are never registered; modules with `register` are registered, the seven owner-admin names tenant-scoped |
| MirrorBot.IdArgRoundTrip | mirror_bot.js:113-122 | `/cmd <n> ...` parses to the id n |
| MirrorBot.IdArgMissing | mirror_bot.js:115-117 | a command without an argument is refused with usage |
| MirrorBot.RemoveAllSpec | mirror_bot.js:170 | `filter` removes every occurrence of the id and keeps the others and their multiplicities |
| MirrorBot.RemoveAllKeeps | mirror_bot.js:166-170 | removing an absent id changes nothing; the first element stays first when it is not removed |
| MirrorBot.ListsStayUnique | mirror_bot.js:131-135 | appending an absent id, or filtering, keeps a list duplicate-free |
| MirrorBot.AddCommandSpec | mirror_bot.js:111-139 | addowner/addprem refuse a missing argument, a non-numeric id, or a present id; otherwise append exactly that id and touch no other file |
| MirrorBot.RemoveCommandSpec | mirror_bot.js:142-174 | delowner/delprem refuse a missing argument, a non-numeric id, an absent id, or the primary owner; otherwise remove that id |
| MirrorBot.RemovedKeepsOthers | mirror_bot.js:232 | a removal keeps every other id and its multiplicity |
| MirrorBot.PrimaryOwnerStays | mirror_bot.js:166-168 | no list command changes the primary owner |
| MirrorBot.ListCommandUnique | mirror_bot.js:197-202 | list commands never introduce duplicates |
| MirrorBot.NameCommandSpec | mirror_bot.js:239-283 | setnamebot/setownername refuse empty arguments, otherwise set only the one field to the space-joined arguments |
| MirrorBot.TenantStore.Add | mirror_bot.js:177-205 | the add handlers are the add rule on the data files |
| MirrorBot.TenantStore.Remove | mirror_bot.js:208-237 | the remove handlers are the remove rule |
| MirrorBot.TenantStore.SetName | mirror_bot.js:262-283 | the name handlers are the name rule |
| MirrorBot.Decompose | mirror_bot.js:318-322 | days·86400 + hours·3600 + minutes·60 + seconds is the uptime, with hours < 24 and minutes, seconds < 60 |
| MirrorBot.DecomposeUnique | mirror_bot.js:318-322 | that decomposition is the only one |
| MirrorBot.ShownTotal | mirror_bot.js:324-328 | the printed parts add up to the uptime |
| MirrorBot.ShownShape | mirror_bot.js:325-328 | day, hour and minute parts appear only when non-zero, seconds always and last |
| MirrorBot.RuntimeText | mirror_bot.js:324-328 | the `+=` builder produces the rendering of the shown parts |
| Strings.Trim | bot.js:92 | trimming removes leading and trailing white space only |
| Strings.TrimIdempotent | commands/tebak.js:13 | trimming twice is trimming once |
| Strings.Split | commands/help.js:9 | `split(" ")` yields at least one part, none containing a space |
| Strings.JoinSplit | commands/test.js:56 | joining the parts of a split gives back the text |
| Strings.SplitJoin | mirror_bot.js:247 | splitting a join of space-free parts gives the parts back |
| Strings.ArgTextIs | commands/test.js:54-56 | there is an argument iff the text has a space; it is the text after the first space |
| Strings.RemoveFirst | commands/help.js:69 | `replace('/', '')` removes only the first "/" |
| Strings.ParseIntRoundTrip | mirror_bot.js:119-122 | `parseInt` of a printed integer gives it back |
| Strings.ParseIntNaN | mirror_bot.js:119-122 | text starting with no sign, digit or space parses to NaN |

## Left out

- Telegram I/O is left out: replies, message edits, callback acknowledgements, `getChatMember`, deletes, kicks, `setMyCommands` and launching. A command's reply is returned as a value; which Telegram call carries it is not modelled.
- Message wording and formatting are left out. This covers the Markdown texts, the `mirror` panel, `mirror_list`, `mirror_manage`, `mirror_data` and `mirror_stats`, `/start`'s date and memory lines, and `/mirrorinfo`. These views only read state.
- The menu's `info` and the test command's `test_action` reply are left out. They only show text.
- `setthumb` is left out. It needs a replied-to photo, which the model has no notion of.
- The file system, JSON parsing and the text of generated config files are abstract. A data directory is a map from file name to parsed content. A parse error is not modelled; neither is the path in `setnamebot` where it ends in the catch block, beyond a failed write.
- Processes are abstract: spawn, kill and the exit and output listeners become a set of running ids. A start that throws after the config is written is modelled as a failed spawn.
- Timers are abstract. The 5-second auto-start delay and the 30-minute sweep interval are method calls. `Date.now`, `Math.random` and the random session ids are parameters.
- `loadCommands`, `loadMirrorCommands` and dynamic `require` are modelled as an explicit list of modules.
- Process bootstrap, signal handling, the logger, the logging middleware and the error handler (`bot.catch`) are left out.
- Concurrency is left out: async interleaving and the unguarded read-modify-write of the registry file. Each handler runs to completion.
- The ownerOnly middleware file (`middlewares/ownerOnly.js`) is not part of this model. It appears only as an opaque middleware value.
- The tenant process loads only modules with a `register` function. So the template commands are not loaded in tenants. The model records this in `LoadMirrorCommands` and does not run a tenant's command set.
- `help` builds a fresh manager and loads the command directory again. The model takes the resulting command list as a parameter.
- Trim: counts lengths in code points, not UTF-16 code units. The same holds for `setnamebot`'s length check and the wizard's name check.
- FindLink: the URL regular expression is a predicate that checks for `http://` or `https://` followed by a non-space character. That is all `test` needs, since the regular expression has no end anchor.
- Decompose: takes the uptime as whole seconds; `process.uptime()` is a float and `Math.floor` of it is assumed.
- Handle: the tenant's stored `rateLimitPerMinute` is ignored, as in the code; the limit is the constant 30.
- DispatchCallback: a handler is an opaque value with an outcome oracle. The session changes a handler makes are proved separately, on the handler methods of each command.
- ParseInt: keeps the exact integer. JavaScript's `parseInt` returns a double, so a digit run above 2^53 is rounded. The model therefore does not capture that `/addowner 99999999999999999999` stores 100000000000000000000 (`mirror_bot.js:119`, `mirror_bot.js:135`). The same holds for the other owner and premium commands and the wizard's owner id. A tebak guess that large is out of range either way.
- OnTebakGame: whether an update carries a message is a parameter. That a callback update has none comes from Telegraf's context, which is not part of this model. The throw's message text is the one V8 gives and is not part of any contract.
- RouteText: a handler that throws counts as "not true", as in the code. The handler's side effects are modelled on the command methods, not inside the scan.

## Findings

| source | as written | input that shows it | evidently intended | confidence | as-written member | corrected member |
|---|---|---|---|---|---|---|
| commands/menu.js:22-23 | the game submenu's buttons send `tebak_game` and `menu_main`, and the settings back button (line 35) sends `menu_main`; the engine knows these actions only as `menu_tebak_game` and `menu_menu_main` | pressing "Tebak Angka" sends `tebak_game`: no action key equals it or is followed by "_" in it, so the bot answers "Aksi tidak ditemukan" | the buttons send `menu_tebak_game` and `menu_menu_main`, routing to the menu's own actions | not executed | Menu.GameMenuAsWrittenUnrouted | Menu.GameMenuRoutes |
| commands/menu.js:45 | the `tebak_game` action assigns `ctx.message.text` before running the guessing command; a callback update carries no message, so the assignment throws | pressing a button whose data routes to `menu_tebak_game`: the action acknowledges the press, then throws, and the bot answers "Terjadi kesalahan saat memproses aksi." without starting a game | the action runs the guessing command as for `/tebak` without touching the message, so a game starts | not executed | Menu.MenuCommand.OnTebakGame | Menu.MenuCommand.OnTebakGameIntended |
