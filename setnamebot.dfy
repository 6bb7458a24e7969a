/**
 * commands/setnamebot.js: the owner-only command that renames the main
 * bot, either from its argument or from the next message the owner sends.
 * The bot info lives in the main bot's data directory (`Bot.Store`);
 * whether writing it succeeds is a parameter.
 */
module SetNameBot {
  import opened Wrappers
  import opened OrderedMap
  import opened Strings
  import opened DataFiles
  import opened CommandTemplate
  import opened BotCommands
  import opened Bot

  /** The session that waits for the new name. */
  const SettingBotName := Pending("setting_bot_name")

  /** Both paths accept a name of 3 to 50 characters. */
  predicate ValidName(n: string) {
    3 <= |n| <= 50
  }

  /** The bot info the command starts from when `botinfo.json` is missing. */
  const MainInfoDefault := BotInfo("My Telegram Bot", "Bot Owner", None)

  function MainInfoOf(d: DataDir): BotInfo
  {
    if BotInfoFile in d && d[BotInfoFile].BotInfoJson? then d[BotInfoFile].info else MainInfoDefault
  }

  datatype NameReply = AskName | BadLength | Renamed(name: string) | WriteFailed

  /** `setBotName` over the data directory. */
  function Rename(d: DataDir, name: string, writeOk: bool): (DataDir, NameReply)
  {
    if !ValidName(name) then (d, BadLength)
    else if !writeOk then (d, WriteFailed)
    else (d[BotInfoFile := BotInfoJson(MainInfoOf(d).(botName := name))], Renamed(name))
  }

  /** `execute`: with words after the command they are the name; without,
      the command waits for the name. */
  function ExecuteOn(ss: Sessions, d: DataDir, user: UserId, text: string, writeOk: bool): (Sessions, DataDir, NameReply)
  {
    match ArgText(text)
    case Some(name) => var (d', r) := Rename(d, name, writeOk); (ss, d', r)
    case None => (ss[user := SettingBotName], d, AskName)
  }

  /** The `bot_name_input` text handler: the new state, whether it claims
      the message, and its reply. */
  function NameInput(ss: Sessions, d: DataDir, user: UserId, text: string, writeOk: bool): (Sessions, DataDir, bool, Option<NameReply>)
  {
    if user !in ss then (ss, d, false, None)
    else
      var (d', r) := Rename(d, Trim(text), writeOk);
      (if r.Renamed? then ss - {user} else ss, d', true, Some(r))
  }

  /** A rename succeeds exactly when the name has 3 to 50 characters and
      the write succeeds; it then sets the bot name alone and keeps the
      other fields and files; otherwise nothing changes. */
  lemma RenameSpec(d: DataDir, name: string, writeOk: bool)
    ensures var (d', r) := Rename(d, name, writeOk);
      && (r.Renamed? <==> ValidName(name) && writeOk)
      && (r == BadLength <==> !ValidName(name))
      && (!r.Renamed? ==> d' == d)
      && (r.Renamed? ==>
            r.name == name && BotInfoFile in d' && d'[BotInfoFile].BotInfoJson?
            && d'[BotInfoFile].info == BotInfo(name, MainInfoOf(d).ownerName, MainInfoOf(d).thumbnail)
            && forall f :: f != BotInfoFile ==> (f in d' <==> f in d) && (f in d ==> d'[f] == d[f]))
  {
  }

  /** With words after the command, they are the name and the sessions
      are untouched; with none, the user's session becomes the waiting
      one and no file changes. */
  lemma ExecuteSpec(ss: Sessions, d: DataDir, user: UserId, text: string, writeOk: bool)
    ensures var (ss', d', r) := ExecuteOn(ss, d, user, text, writeOk);
      && (' ' in text ==>
            ss' == ss && (d', r) == Rename(d, text[FindChar(text, ' ') + 1..], writeOk))
      && (' ' !in text ==> ss' == ss[user := SettingBotName] && d' == d && r == AskName)
  {
    ArgTextIs(text);
  }

  /** The handler declines without a session; with one it always claims
      the message, renames from the trimmed text, and ends the session
      only when the rename succeeded. */
  lemma NameInputSpec(ss: Sessions, d: DataDir, user: UserId, text: string, writeOk: bool)
    ensures var (ss', d', handled, r) := NameInput(ss, d, user, text, writeOk);
      && (handled <==> user in ss)
      && (!handled ==> ss' == ss && d' == d && r.None?)
      && (handled ==>
            r.Some? && (d', r.value) == Rename(d, Trim(text), writeOk)
            && ss' == if r.value.Renamed? then ss - {user} else ss)
  {
    var t := Trim(text);
    var (d', r) := Rename(d, t, writeOk);
  }

  class SetNameBotCommand {
    const base: BotCommand

    /** Owner-only, with one text handler. */
    constructor ()
      ensures fresh(base) && base.Valid()
      ensures base.name == "setnamebot" && base.isTemplate
      ensures base.middleware == [OwnerOnlyMiddleware]
      ensures base.sessions == map[] && base.actions == []
      ensures base.handlers == [("bot_name_input", Callback("setnamebot", "bot_name_input"))]
    {
      base := new Command("setnamebot", "Mengatur nama bot (Owner only)");
      new;
      base.AddMiddleware(OwnerOnlyMiddleware);
      base.AddTextHandler("bot_name_input", Callback("setnamebot", "bot_name_input"));
    }

    /** `setBotName`: read the bot info, set its name, write it back. */
    method SetBotName(store: Store, name: string, writeOk: bool) returns (reply: NameReply)
      modifies store
      ensures (store.files, reply) == Rename(old(store.files), name, writeOk)
    {
      if !ValidName(name) {
        return BadLength;
      }
      if !writeOk {
        return WriteFailed;
      }
      var info := MainInfoOf(store.files);
      info := info.(botName := name);
      store.files := store.files[BotInfoFile := BotInfoJson(info)];
      reply := Renamed(name);
    }

    method Execute(store: Store, user: UserId, text: string, writeOk: bool) returns (reply: NameReply)
      modifies base, store
      ensures (base.sessions, store.files, reply) == ExecuteOn(old(base.sessions), old(store.files), user, text, writeOk)
      ensures base.actions == old(base.actions) && base.handlers == old(base.handlers)
      ensures base.middleware == old(base.middleware)
    {
      var name := ArgText(text);
      if name.Some? {
        reply := SetBotName(store, name.value, writeOk);
        return;
      }
      base.SetSession(user, SettingBotName);
      reply := AskName;
    }

    /** The `bot_name_input` handler: `handled` is its result. */
    method OnBotNameInput(store: Store, user: UserId, text: string, writeOk: bool) returns (handled: bool, reply: Option<NameReply>)
      modifies base, store
      ensures (base.sessions, store.files, handled, reply) == NameInput(old(base.sessions), old(store.files), user, text, writeOk)
      ensures base.actions == old(base.actions) && base.handlers == old(base.handlers)
      ensures base.middleware == old(base.middleware)
    {
      if !base.HasActiveSession(user) {
        return false, None;
      }
      var r := SetBotName(store, Trim(text), writeOk);
      if r.Renamed? {
        base.ClearSession(user);
      }
      handled, reply := true, Some(r);
    }
  }
}
