/**
 * commands/menu.js: the main menu and its submenus. Each button carries
 * callback data that the callback router of bot.js matches against the
 * merged action keys, `<command>_<action>`.
 */
module Menu {
  import opened Wrappers
  import opened OrderedMap
  import Strings
  import opened CommandTemplate
  import opened BotCommands
  import Bot
  import Tebak
  import TestCommand

  /** The actions the menu registers, in order. */
  const MenuActionIds: seq<string> := ["info", "game", "settings", "tebak_game", "menu_main"]

  /** `name_id` for every id: the keys a command's actions get in the merged
      table. */
  function Namespace(name: string, ids: seq<string>): (keys: seq<string>)
    ensures |keys| == |ids|
    ensures forall i :: 0 <= i < |ids| ==> keys[i] == name + "_" + ids[i]
  {
    if ids == [] then [] else [name + "_" + ids[0]] + Namespace(name, ids[1..])
  }

  /** Every key of the merged action table of the main bot: only the menu
      and test commands register actions, and no global action is
      registered. The order in the table depends on the load order. */
  function BotActionKeys(): seq<string>
  {
    Namespace("menu", MenuActionIds) + Namespace("test", TestCommand.TestActionIds)
  }

  /** The main menu's buttons, row by row. */
  const MainMenuRows: seq<seq<string>> := [["menu_info", "menu_game"], ["menu_settings"]]

  /** The game submenu's buttons as menu.js writes them. */
  const GameMenuRowsAsWritten: seq<seq<string>> := [["tebak_game"], ["menu_main"]]

  /** The settings submenu's back button as menu.js writes it. */
  const SettingsMenuRowsAsWritten: seq<seq<string>> := [["menu_main"]]

  /** The game submenu's buttons with the menu's prefix, so that they reach
      the `tebak_game` and `menu_main` actions. */
  const GameMenuRows: seq<seq<string>> := [["menu_tebak_game"], ["menu_menu_main"]]

  const SettingsMenuRows: seq<seq<string>> := [["menu_menu_main"]]

  /** The key of the menu action `id`. */
  function MenuKey(id: string): string {
    "menu_" + id
  }

  /** The menu's action ids start with five different letters. */
  lemma Initials()
    ensures |MenuActionIds| == 5 && |TestCommand.TestActionIds| == 2
    ensures forall i :: 0 <= i < 5 ==> |MenuActionIds[i]| > 0
    ensures MenuActionIds[0][0] == 'i' && MenuActionIds[1][0] == 'g' && MenuActionIds[2][0] == 's'
    ensures MenuActionIds[3][0] == 't' && MenuActionIds[4][0] == 'm'
  {
  }

  /** The action table of the menu command: each id bound to the menu's own
      handler for it, in registration order. */
  function MenuEntries(ids: seq<string>): (m: OMap<string, Callback>)
    ensures Keys(m) == ids
  {
    seq(|ids|, i requires 0 <= i < |ids| => (ids[i], Callback("menu", ids[i])))
  }

  /** No two menu action ids are equal. */
  lemma MenuIdsDistinct()
    ensures forall i, j :: 0 <= i < j < |MenuActionIds| ==> MenuActionIds[i] != MenuActionIds[j]
  {
    Initials();
  }

  /** Registering the next id, absent so far, appends its entry. */
  lemma AddMenuEntry(ids: seq<string>, j: nat)
    requires j < |ids| && forall i :: 0 <= i < j ==> ids[i] != ids[j]
    ensures Set(MenuEntries(ids[..j]), ids[j], Callback("menu", ids[j])) == MenuEntries(ids[..j + 1])
  {
    var m := MenuEntries(ids[..j]);
    IndexOfIs(m, ids[j], |m|);
  }

  /** The key of each menu action is selected by that key and by no other
      key of the merged table. */
  lemma MenuKeySelectsOnlyItself(i: nat)
    requires i < |MenuActionIds|
    ensures forall k :: k in BotActionKeys() ==> (Bot.Matches(MenuKey(MenuActionIds[i]), k) <==> k == MenuKey(MenuActionIds[i]))
  {
    var menu, test := Namespace("menu", MenuActionIds), Namespace("test", TestCommand.TestActionIds);
    var ks := BotActionKeys();
    forall k | k in ks
      ensures Bot.Matches(MenuKey(MenuActionIds[i]), k) <==> k == MenuKey(MenuActionIds[i])
    {
      var j :| 0 <= j < |ks| && ks[j] == k;
      if j < |menu| {
        assert k == menu[j];
        MenuKeyAgainstMenu(i, j);
      } else {
        assert k == test[j - |menu|];
        MenuKeyAgainstTest(i, j - |menu|);
      }
    }
  }

  lemma MenuKeyAgainstMenu(i: nat, j: nat)
    requires i < 5 && j < 5
    ensures Bot.Matches(MenuKey(MenuActionIds[i]), Namespace("menu", MenuActionIds)[j]) <==> i == j
  {
    Initials();
    var a, b := MenuActionIds[i], MenuActionIds[j];
    var d := MenuKey(a);
    var k := Namespace("menu", MenuActionIds)[j];
    assert k == ("menu" + "_") + b;
    if j != i {
      assert d[5] == a[0] && k[5] == b[0];
      Bot.NoMatchAt(d, k, 5);
    } else {
      assert "menu" + "_" == "menu_";
    }
  }

  lemma MenuKeyAgainstTest(i: nat, j: nat)
    requires i < 5 && j < 2
    ensures !Bot.Matches(MenuKey(MenuActionIds[i]), Namespace("test", TestCommand.TestActionIds)[j])
  {
    var d := MenuKey(MenuActionIds[i]);
    var k := Namespace("test", TestCommand.TestActionIds)[j];
    assert k == "test" + "_" + TestCommand.TestActionIds[j];
    assert k[0] == 't' && d[0] == 'm';
    Bot.NoMatchAt(d, k, 0);
  }

  /** Each main-menu button selects exactly one key of the merged table:
      the menu's own action it names. */
  lemma MainMenuRoutes()
    ensures forall k :: k in BotActionKeys() ==> (Bot.Matches(MainMenuRows[0][0], k) <==> k == MenuKey("info"))
    ensures forall k :: k in BotActionKeys() ==> (Bot.Matches(MainMenuRows[0][1], k) <==> k == MenuKey("game"))
    ensures forall k :: k in BotActionKeys() ==> (Bot.Matches(MainMenuRows[1][0], k) <==> k == MenuKey("settings"))
  {
    ButtonKeys();
    MenuKeySelectsOnlyItself(0);
    MenuKeySelectsOnlyItself(1);
    MenuKeySelectsOnlyItself(2);
  }

  /** Every button, of the main menu and of the corrected submenus, carries
      the key of one menu action. */
  lemma ButtonKeys()
    ensures MainMenuRows[0][0] == MenuKey(MenuActionIds[0]) && MainMenuRows[0][1] == MenuKey(MenuActionIds[1])
    ensures MainMenuRows[1][0] == MenuKey(MenuActionIds[2])
    ensures GameMenuRows[0][0] == MenuKey(MenuActionIds[3]) && GameMenuRows[1][0] == MenuKey(MenuActionIds[4])
  {
    assert MenuKey(MenuActionIds[0]) == "menu_info";
    assert MenuKey(MenuActionIds[1]) == "menu_game";
    assert MenuKey(MenuActionIds[2]) == "menu_settings";
    assert MenuKey(MenuActionIds[3]) == "menu_tebak_game";
    assert MenuKey(MenuActionIds[4]) == "menu_menu_main";
  }

  /** As written, the game submenu's buttons select no key of the merged
      table at all, so the router answers that the action was not found. */
  lemma GameMenuAsWrittenUnrouted()
    ensures forall k :: k in BotActionKeys() ==> !Bot.Matches(GameMenuRowsAsWritten[0][0], k)
    ensures forall k :: k in BotActionKeys() ==> !Bot.Matches(GameMenuRowsAsWritten[1][0], k)
    ensures SettingsMenuRowsAsWritten == [GameMenuRowsAsWritten[1]]
  {
    Unrouted("tebak_game", 2);
    Unrouted("menu_main", 0);
  }

  /** Data that differs from `test_` at `t` and, when it starts with
      `menu_`, continues with none of the menu ids' initials and is not
      `menu_me…`, selects no key. */
  lemma Unrouted(data: string, t: nat)
    requires t < 5 && |data| > 7 && data[t] != "test_"[t]
    requires data[..5] != "menu_" || (data[5] != 'i' && data[5] != 'g' && data[5] != 's' && data[5] != 't' && data[6] != 'e')
    ensures forall k :: k in BotActionKeys() ==> !Bot.Matches(data, k)
  {
    var menu, test := Namespace("menu", MenuActionIds), Namespace("test", TestCommand.TestActionIds);
    var ks := BotActionKeys();
    forall k | k in ks
      ensures !Bot.Matches(data, k)
    {
      var j :| 0 <= j < |ks| && ks[j] == k;
      if j < |menu| {
        assert k == menu[j];
        UnroutedMenu(data, j);
      } else {
        assert k == test[j - |menu|];
        UnroutedTest(data, t, j - |menu|);
      }
    }
  }

  lemma UnroutedMenu(data: string, j: nat)
    requires j < 5 && |data| > 7
    requires data[..5] != "menu_" || (data[5] != 'i' && data[5] != 'g' && data[5] != 's' && data[5] != 't' && data[6] != 'e')
    ensures !Bot.Matches(data, Namespace("menu", MenuActionIds)[j])
  {
    Initials();
    var k := Namespace("menu", MenuActionIds)[j];
    assert k == "menu" + "_" + MenuActionIds[j];
    assert k[..5] == "menu_" && k[5] == MenuActionIds[j][0];
    if data[..5] != "menu_" {
      var p :| 0 <= p < 5 && data[p] != "menu_"[p];
      Bot.NoMatchAt(data, k, p);
    } else if j == 4 {
      assert k == "menu_menu_main";
      Bot.NoMatchAt(data, k, 6);
    } else {
      Bot.NoMatchAt(data, k, 5);
    }
  }

  lemma UnroutedTest(data: string, t: nat, j: nat)
    requires j < 2 && t < 5 && |data| > 7 && data[t] != "test_"[t]
    ensures !Bot.Matches(data, Namespace("test", TestCommand.TestActionIds)[j])
  {
    var k := Namespace("test", TestCommand.TestActionIds)[j];
    assert k == "test" + "_" + TestCommand.TestActionIds[j];
    assert k[..5] == "test_";
    Bot.NoMatchAt(data, k, t);
  }

  /** With the prefix, each submenu button selects exactly the action it is
      meant for. */
  lemma GameMenuRoutes()
    ensures forall k :: k in BotActionKeys() ==> (Bot.Matches(GameMenuRows[0][0], k) <==> k == MenuKey("tebak_game"))
    ensures forall k :: k in BotActionKeys() ==> (Bot.Matches(GameMenuRows[1][0], k) <==> k == MenuKey("menu_main"))
    ensures SettingsMenuRows == [GameMenuRows[1]]
  {
    ButtonKeys();
    MenuKeySelectsOnlyItself(3);
    MenuKeySelectsOnlyItself(4);
  }

  /** Which message a menu is shown in: the message of the pressed button
      is edited, otherwise a new message is sent. */
  datatype MenuView = MenuView(rows: seq<seq<string>>, edit: bool)

  class MenuCommand {
    const base: BotCommand

    /** The menu registers its five actions and nothing else. */
    constructor ()
      ensures fresh(base) && base.Valid()
      ensures base.name == "menu" && base.isTemplate
      ensures base.actions == MenuEntries(MenuActionIds)
      ensures base.sessions == map[] && base.handlers == [] && base.middleware == []
    {
      MenuIdsDistinct();
      base := new Command("menu", "Menampilkan menu utama dengan tombol interaktif");
      new;
      assert base.actions == MenuEntries(MenuActionIds[..0]);
      AddMenuEntry(MenuActionIds, 0);
      base.AddAction("info", Callback("menu", "info"));
      AddMenuEntry(MenuActionIds, 1);
      base.AddAction("game", Callback("menu", "game"));
      AddMenuEntry(MenuActionIds, 2);
      base.AddAction("settings", Callback("menu", "settings"));
      AddMenuEntry(MenuActionIds, 3);
      base.AddAction("tebak_game", Callback("menu", "tebak_game"));
      AddMenuEntry(MenuActionIds, 4);
      base.AddAction("menu_main", Callback("menu", "menu_main"));
      assert MenuActionIds[..5] == MenuActionIds;
    }

    /** `showMainMenu` */
    method ShowMainMenu(fromCallback: bool) returns (view: MenuView)
      ensures view.rows == MainMenuRows && view.edit == fromCallback
    {
      view := MenuView(MainMenuRows, fromCallback);
    }

    /** `execute` shows the main menu. */
    method Execute(fromCallback: bool) returns (view: MenuView)
      ensures view.rows == MainMenuRows && view.edit == fromCallback
    {
      view := ShowMainMenu(fromCallback);
    }

    /** The `game` action edits the pressed message into the game submenu,
        whose buttons carry the data as written, which selects no action
        (`GameMenuAsWrittenUnrouted`). */
    method OnGame() returns (view: MenuView)
      ensures view.rows == GameMenuRowsAsWritten && view.edit
      ensures forall k :: k in BotActionKeys() ==> !Bot.Matches(view.rows[0][0], k) && !Bot.Matches(view.rows[1][0], k)
    {
      view := MenuView(GameMenuRowsAsWritten, true);
      GameMenuAsWrittenUnrouted();
    }

    /** The `settings` action edits the pressed message into the settings
        view, with the same back button as the game submenu. */
    method OnSettings() returns (view: MenuView)
      ensures view.rows == SettingsMenuRowsAsWritten && view.edit
      ensures forall k :: k in BotActionKeys() ==> !Bot.Matches(view.rows[0][0], k)
    {
      view := MenuView(SettingsMenuRowsAsWritten, true);
      GameMenuAsWrittenUnrouted();
    }

    /** The `menu_main` action goes back to the main menu in the same
        message. */
    method OnMenuMain() returns (view: MenuView)
      ensures view.rows == MainMenuRows && view.edit
    {
      view := ShowMainMenu(true);
    }

    /** The `tebak_game` action as written: after acknowledging the press
        it assigns the text of the update's message and then runs the
        guessing command. `hasMessage` says whether the update carries a
        message; a callback update does not, so for a button press the
        assignment throws before the guessing command runs, and the games
        in progress stay as they were. */
    method OnTebakGame(tebak: Tebak.TebakCommand, hasMessage: bool, user: UserId, target: int)
      returns (c: Completion, reply: Option<Tebak.TebakReply>)
      requires tebak.Valid() && Tebak.InRange(target)
      modifies tebak.base
      ensures tebak.Valid()
      ensures !hasMessage ==> c.Threw? && reply == None && tebak.base.sessions == old(tebak.base.sessions)
      ensures hasMessage ==> (c == Returned && reply.Some? &&
                              (tebak.base.sessions, reply.value) == Tebak.Start(old(tebak.base.sessions), user, target))
    {
      if !hasMessage {
        return Threw("Cannot set properties of undefined (setting 'text')"), None;
      }
      var r := OnTebakGameIntended(tebak, user, target);
      c, reply := Returned, Some(r);
    }

    /** The `tebak_game` action as intended: the guessing command runs as if
        `/tebak` had been sent, so a game starts unless one is running. */
    method OnTebakGameIntended(tebak: Tebak.TebakCommand, user: UserId, target: int) returns (reply: Tebak.TebakReply)
      requires tebak.Valid() && Tebak.InRange(target)
      modifies tebak.base
      ensures tebak.Valid()
      ensures (tebak.base.sessions, reply) == Tebak.Start(old(tebak.base.sessions), user, target)
    {
      assert Strings.FindChar("/tebak", ' ') == 6;
      reply := tebak.Execute(user, "/tebak", target);
    }
  }
}
