/**
 * utils/commandTemplate.js: the bookkeeping every command owns. A command
 * keeps one session payload per user, a map of action callbacks, a map of
 * text-handler callbacks and a list of middleware. `P` is the session payload
 * and `H` the type of a callback.
 */
module CommandTemplate {
  import opened Wrappers
  import opened OrderedMap

  type UserId = int

  /** What a call of `execute` ends in. */
  datatype Completion = Returned | Threw(message: string)

  /** The template's own `execute`: every command must replace it, so it throws. */
  function BaseExecute(): (c: Completion)
    ensures c.Threw?
  {
    Threw("Method execute harus diimplementasi oleh command")
  }

  class Command<P, H> {
    const name: string
    const description: string
    /** False for a registered module object that is not built on the
        template: it has none of the session, action and handler methods. */
    const isTemplate: bool
    var sessions: map<UserId, P>
    var actions: OMap<string, H>
    var handlers: OMap<string, H>
    var middleware: seq<H>

    ghost predicate Valid()
      reads this
    {
      UniqueKeys(actions) && UniqueKeys(handlers)
    }

    /** A fresh command has no sessions, actions, handlers or middleware. */
    constructor (name: string, description: string)
      ensures this.name == name && this.description == description && isTemplate
      ensures sessions == map[] && actions == [] && handlers == [] && middleware == []
      ensures Valid()
    {
      this.name := name;
      this.description := description;
      isTemplate := true;
      sessions := map[];
      actions := [];
      handlers := [];
      middleware := [];
    }

    /** A command module that only has a name and a description. */
    constructor Plain(name: string, description: string)
      ensures this.name == name && this.description == description && !isTemplate
      ensures sessions == map[] && actions == [] && handlers == [] && middleware == []
      ensures Valid()
    {
      this.name := name;
      this.description := description;
      isTemplate := false;
      sessions := map[];
      actions := [];
      handlers := [];
      middleware := [];
    }

    predicate HasActiveSession(user: UserId)
      reads this
    {
      user in sessions
    }

    function GetSession(user: UserId): (r: Option<P>)
      reads this
      ensures r.Some? <==> HasActiveSession(user)
      ensures r.Some? ==> r.value == sessions[user]
    {
      if user in sessions then Some(sessions[user]) else None
    }

    /** After `setSession(u, d)` the user has an active session holding `d`;
        a user who had one keeps a single entry; nobody else is affected. */
    method SetSession(user: UserId, data: P)
      modifies this
      ensures HasActiveSession(user) && GetSession(user) == Some(data)
      ensures forall u :: u != user ==> GetSession(u) == old(GetSession(u))
      ensures sessions.Keys == old(sessions).Keys + {user}
      ensures sessions == old(sessions)[user := data]
      ensures actions == old(actions) && handlers == old(handlers) && middleware == old(middleware)
    {
      sessions := sessions[user := data];
    }

    /** After `clearSession(u)` the user has no session; nobody else is
        affected; clearing an absent user changes nothing. */
    method ClearSession(user: UserId)
      modifies this
      ensures !HasActiveSession(user)
      ensures forall u :: u != user ==> GetSession(u) == old(GetSession(u))
      ensures !old(HasActiveSession(user)) ==> sessions == old(sessions)
      ensures sessions == old(sessions) - {user}
      ensures actions == old(actions) && handlers == old(handlers) && middleware == old(middleware)
    {
      sessions := sessions - {user};
    }

    /** `addAction` with a known name replaces that handler in place; a new
        name is appended. */
    method AddAction(actionName: string, handler: H)
      requires Valid()
      modifies this
      ensures Valid()
      ensures actions == Set(old(actions), actionName, handler)
      ensures sessions == old(sessions) && handlers == old(handlers) && middleware == old(middleware)
    {
      SetSpec(actions, actionName, handler);
      actions := Set(actions, actionName, handler);
    }

    /** `addTextHandler`, with the same replace-in-place rule as `addAction`. */
    method AddTextHandler(condition: string, handler: H)
      requires Valid()
      modifies this
      ensures Valid()
      ensures handlers == Set(old(handlers), condition, handler)
      ensures sessions == old(sessions) && actions == old(actions) && middleware == old(middleware)
    {
      SetSpec(handlers, condition, handler);
      handlers := Set(handlers, condition, handler);
    }

    /** Middleware runs in the order it was added. */
    method AddMiddleware(m: H)
      modifies this
      ensures middleware == old(middleware) + [m]
      ensures sessions == old(sessions) && actions == old(actions) && handlers == old(handlers)
    {
      middleware := middleware + [m];
    }
  }
}
