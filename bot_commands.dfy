/**
 * What the commands under commands/ share when they are registered in one
 * command manager: the session payloads they store and the identities of
 * the callbacks they register.
 */
module BotCommands {
  import opened CommandTemplate

  /** A stored session: a number-guessing game, or a command waiting for
      the user's next message (`{ action: ... }`). */
  datatype Payload = Game(correctNumber: int, attemptsLeft: int) | Pending(action: string)

  /** A registered action, text handler or middleware, named by the
      command that owns it and the name it was registered under. */
  datatype Callback = Callback(owner: string, id: string)

  type BotCommand = Command<Payload, Callback>

  type Sessions = map<UserId, Payload>

  /** middlewares/ownerOnly.js */
  const OwnerOnlyMiddleware := Callback("middlewares", "ownerOnly")
}
