/**
 * commands/test.js: a demonstration command with two buttons and one text
 * handler that echoes the next message after the "input" button.
 */
module TestCommand {
  import opened Wrappers
  import opened OrderedMap
  import opened Strings
  import opened CommandTemplate
  import opened BotCommands
  import Bot

  /** The session the `input_text` button leaves behind. */
  const WaitingTextInput := Pending("waiting_text_input")

  /** The actions the command registers, in order. */
  const TestActionIds: seq<string> := ["test_action", "input_text"]

  /** The callback data of the test menu's two buttons. */
  const TestMenuData: seq<string> := ["test_test_action", "test_input_text"]

  /** The `input_text` action: the clicking user now waits for input. */
  function InputText(ss: Sessions, user: UserId): Sessions
  {
    ss[user := WaitingTextInput]
  }

  /** The `text_input` handler: the new sessions, whether it claims the
      message, and the text it echoes. */
  function TextInput(ss: Sessions, user: UserId, text: string): (Sessions, bool, Option<string>)
  {
    if user in ss && ss[user] == WaitingTextInput then (ss - {user}, true, Some(text))
    else (ss, false, None)
  }

  /** The handler claims a message exactly when its sender waits for
      input; it then echoes the message verbatim and ends the wait;
      otherwise nothing changes. */
  lemma TextInputSpec(ss: Sessions, user: UserId, text: string)
    ensures var (ss', handled, echo) := TextInput(ss, user, text);
      && (handled <==> user in ss && ss[user].Pending? && ss[user].action == "waiting_text_input")
      && (handled ==> echo == Some(text) && ss' == ss - {user})
      && (!handled ==> echo.None? && ss' == ss)
  {
  }

  /** Pressing "input" and then sending a message echoes that message and
      leaves the user without a session, whatever the user had before. */
  lemma InputThenEcho(ss: Sessions, user: UserId, text: string)
    ensures TextInput(InputText(ss, user), user, text) == (ss - {user}, true, Some(text))
  {
    assert InputText(ss, user) - {user} == ss - {user};
  }

  /** Each button's data is the command's name, `_` and the id of the
      action it is meant for, so it selects that action's merged key. */
  lemma MenuButtonsRoute()
    ensures |TestMenuData| == |TestActionIds|
    ensures forall i :: 0 <= i < |TestMenuData| ==>
      TestMenuData[i] == "test" + "_" + TestActionIds[i] && Bot.Matches(TestMenuData[i], "test" + "_" + TestActionIds[i])
  {
  }

  datatype TestReply = ShowArgument(argument: string) | ShowMenu(buttons: seq<string>, edit: bool)

  class TestCmd {
    const base: BotCommand

    /** The command registers its two actions and one text handler. */
    constructor ()
      ensures fresh(base) && base.Valid()
      ensures base.name == "test" && base.isTemplate
      ensures base.actions == [("test_action", Callback("test", "test_action")), ("input_text", Callback("test", "input_text"))]
      ensures base.handlers == [("text_input", Callback("test", "text_input"))]
      ensures base.sessions == map[] && base.middleware == []
    {
      base := new Command("test", "Command test untuk sistem modular");
      new;
      base.AddAction("test_action", Callback("test", "test_action"));
      IndexOfIs(base.actions, "input_text", 1);
      base.AddAction("input_text", Callback("test", "input_text"));
      base.AddTextHandler("text_input", Callback("test", "text_input"));
    }

    /** The `input_text` action for the clicking user. */
    method OnInputText(user: UserId)
      modifies base
      ensures base.sessions == InputText(old(base.sessions), user)
      ensures base.actions == old(base.actions) && base.handlers == old(base.handlers)
      ensures base.middleware == old(base.middleware)
    {
      base.SetSession(user, WaitingTextInput);
    }

    /** The `text_input` handler: `handled` is its result. */
    method OnTextInput(user: UserId, text: string) returns (handled: bool, echo: Option<string>)
      modifies base
      ensures (base.sessions, handled, echo) == TextInput(old(base.sessions), user, text)
      ensures base.actions == old(base.actions) && base.handlers == old(base.handlers)
      ensures base.middleware == old(base.middleware)
    {
      if !base.HasActiveSession(user) {
        return false, None;
      }
      var session := base.GetSession(user).value;
      if session.Pending? && session.action == "waiting_text_input" {
        base.ClearSession(user);
        return true, Some(text);
      }
      return false, None;
    }

    /** `execute`: the words after the command are shown back; without
        any, the test menu is shown (edited in place when the update is a
        button press). */
    method Execute(text: string, fromCallback: bool) returns (reply: TestReply)
      ensures ' ' in text ==> reply == ShowArgument(text[FindChar(text, ' ') + 1..])
      ensures ' ' !in text ==> reply == ShowMenu(TestMenuData, fromCallback)
    {
      ArgTextIs(text);
      var argument := ArgText(text);
      if argument.Some? {
        reply := ShowArgument(argument.value);
      } else {
        reply := ShowMenu(TestMenuData, fromCallback);
      }
    }
  }
}
