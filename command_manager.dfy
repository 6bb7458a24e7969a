/**
 * utils/commandManager.js: the registry of commands, in registration order,
 * with engine-wide actions, text handlers and middleware. The engine's view
 * of every action (and every text handler) is one map: the global entries
 * first, then each command's entries under `<command>_<id>`.
 */
module CommandManager {
  import opened Wrappers
  import opened OrderedMap
  import opened CommandTemplate

  /** Which of a command's two callback maps is meant. */
  datatype Table = Actions | Handlers

  /** The action or text-handler map of a command; a command object that is
      not built on the template has neither, so it contributes nothing. */
  function TableOf<P, H>(c: Command<P, H>, which: Table): OMap<string, H>
    reads c
  {
    if !c.isTemplate then [] else if which == Actions then c.actions else c.handlers
  }

  /** A command's entries, each under `name + "_" + id`, in the command's order. */
  function CommandWrites<H>(name: string, table: OMap<string, H>): (ws: seq<(string, H)>)
    ensures |ws| == |table|
    ensures forall i :: 0 <= i < |table| ==> ws[i] == (name + "_" + table[i].0, table[i].1)
  {
    seq(|table|, i requires 0 <= i < |table| => (name + "_" + table[i].0, table[i].1))
  }

  /** The namespaced writes of all commands, command after command. */
  function Namespaced<H>(ts: seq<(string, OMap<string, H>)>): seq<(string, H)>
  {
    if ts == [] then [] else Namespaced(ts[..|ts| - 1]) + CommandWrites(ts[|ts| - 1].0, ts[|ts| - 1].1)
  }

  /** The merged map: the globals set first, then every namespaced write. */
  function AllEntries<H>(globals: OMap<string, H>, ts: seq<(string, OMap<string, H>)>): OMap<string, H>
  {
    SetAll(SetAll([], globals), Namespaced(ts))
  }

  /** The name and table of every registered command, in registry order. */
  function Snapshot<P, H>(cs: OMap<string, Command<P, H>>, which: Table): (ts: seq<(string, OMap<string, H>)>)
    reads set i | 0 <= i < |cs| :: cs[i].1
    ensures |ts| == |cs|
    ensures forall i :: 0 <= i < |cs| ==> ts[i] == (cs[i].0, TableOf(cs[i].1, which))
  {
    if cs == [] then [] else Snapshot(cs[..|cs| - 1], which) + [(cs[|cs| - 1].0, TableOf(cs[|cs| - 1].1, which))]
  }

  /** The test `command.hasActiveSession && command.hasActiveSession(userId)`. */
  predicate Active<P, H>(c: Command<P, H>, user: UserId)
    reads c
  {
    c.isTemplate && c.HasActiveSession(user)
  }

  /** The commands with an active session for `user`, in registry order. */
  ghost function WithSession<P, H>(cs: OMap<string, Command<P, H>>, user: UserId): seq<Command<P, H>>
    reads set i | 0 <= i < |cs| :: cs[i].1
  {
    if cs == [] then []
    else WithSession(cs[..|cs| - 1], user) + (if Active(cs[|cs| - 1].1, user) then [cs[|cs| - 1].1] else [])
  }

  /** Exactly the registered commands that report an active session for
      `user` are listed, each no more often than it is registered. */
  lemma {:induction false} WithSessionMembers<P, H>(cs: OMap<string, Command<P, H>>, user: UserId)
    ensures |WithSession(cs, user)| <= |cs|
    ensures forall c :: c in WithSession(cs, user) ==> exists i :: 0 <= i < |cs| && cs[i].1 == c && Active(c, user)
    ensures forall i :: 0 <= i < |cs| && Active(cs[i].1, user) ==> cs[i].1 in WithSession(cs, user)
    decreases |cs|
  {
    if cs != [] {
      var pre := cs[..|cs| - 1];
      WithSessionMembers(pre, user);
      forall c | c in WithSession(cs, user)
        ensures exists i :: 0 <= i < |cs| && cs[i].1 == c && Active(c, user)
      {
        if c in WithSession(pre, user) {
          assert exists i :: 0 <= i < |pre| && pre[i].1 == c && Active(c, user);
          var i :| 0 <= i < |pre| && pre[i].1 == c && Active(c, user);
          assert cs[i] == pre[i];
        } else {
          assert cs[|cs| - 1].1 == c;
        }
      }
      forall i | 0 <= i < |cs| && Active(cs[i].1, user)
        ensures cs[i].1 in WithSession(cs, user)
      {
        if i < |pre| {
          assert pre[i] == cs[i];
        }
      }
    }
  }

  /** Every entry of command `i`'s table is among the namespaced writes. */
  lemma {:induction false} NamespacedHas<H>(ts: seq<(string, OMap<string, H>)>, i: nat, j: nat)
    requires i < |ts| && j < |ts[i].1|
    ensures (ts[i].0 + "_" + ts[i].1[j].0, ts[i].1[j].1) in Namespaced(ts)
    decreases |ts|
  {
    var pre := ts[..|ts| - 1];
    var ws := CommandWrites(ts[|ts| - 1].0, ts[|ts| - 1].1);
    assert Namespaced(ts) == Namespaced(pre) + ws;
    if i == |ts| - 1 {
      assert ws[j] == (ts[i].0 + "_" + ts[i].1[j].0, ts[i].1[j].1);
    } else {
      assert pre[i] == ts[i];
      NamespacedHas(pre, i, j);
    }
  }

  /** Globals are inserted first: the merged map starts with the globals'
      keys in their order, and its keys are unique. */
  lemma GlobalsFirst<H>(globals: OMap<string, H>, ts: seq<(string, OMap<string, H>)>)
    requires UniqueKeys(globals)
    ensures |AllEntries(globals, ts)| >= |globals|
    ensures Keys(AllEntries(globals, ts))[..|globals|] == Keys(globals)
    ensures UniqueKeys(AllEntries(globals, ts))
  {
    SetAllFresh(globals);
    SetAllKeys(globals, Namespaced(ts));
  }

  /** The value under a key is the last command write to it; a global key no
      command writes keeps the global handler. On a collision the command's
      handler wins, and by `GlobalsFirst` the entry keeps the global's place. */
  lemma MergedValue<H>(globals: OMap<string, H>, ts: seq<(string, OMap<string, H>)>, k: string)
    requires UniqueKeys(globals)
    ensures Get(AllEntries(globals, ts), k) == match LastWrite(Namespaced(ts), k) case Some(v) => Some(v) case None => Get(globals, k)
    ensures HasKey(AllEntries(globals, ts), k) <==> HasKey(globals, k) || LastWrite(Namespaced(ts), k).Some?
  {
    SetAllFresh(globals);
    SetAllGet(globals, Namespaced(ts), k);
  }

  /** Every command entry is reachable under `name + "_" + id`. */
  lemma MergedHasCommandEntry<H>(globals: OMap<string, H>, ts: seq<(string, OMap<string, H>)>, i: nat, j: nat)
    requires UniqueKeys(globals)
    requires i < |ts| && j < |ts[i].1|
    ensures HasKey(AllEntries(globals, ts), ts[i].0 + "_" + ts[i].1[j].0)
  {
    var ns := Namespaced(ts);
    NamespacedHas(ts, i, j);
    var idx :| 0 <= idx < |ns| && ns[idx] == (ts[i].0 + "_" + ts[i].1[j].0, ts[i].1[j].1);
    SetAllFresh(globals);
    SetAllKeys(globals, ns);
  }

  /** The `for (const [k, v] of pairs) map.set(k, v)` loop. */
  /** The globals set into an empty map, then each command's entries
      under its name, command after command. */
  method MergeTables<H>(globals: OMap<string, H>, ts: seq<(string, OMap<string, H>)>) returns (r: OMap<string, H>)
    ensures r == AllEntries(globals, ts)
  {
    r := SetEach([], globals);
    ghost var base := r;
    var i := 0;
    while i < |ts|
      invariant 0 <= i <= |ts|
      invariant r == SetAll(base, Namespaced(ts[..i]))
    {
      var (name, table) := ts[i];
      SetAllAppend(base, Namespaced(ts[..i]), CommandWrites(name, table));
      r := SetEach(r, CommandWrites(name, table));
      assert ts[..i + 1][..i] == ts[..i];
      i := i + 1;
    }
    assert ts[..i] == ts;
  }

  method SetEach<H>(m: OMap<string, H>, ps: seq<(string, H)>) returns (r: OMap<string, H>)
    ensures r == SetAll(m, ps)
  {
    r := m;
    var k := 0;
    while k < |ps|
      invariant 0 <= k <= |ps|
      invariant r == SetAll(m, ps[..k])
    {
      assert ps[..k + 1][..k] == ps[..k];
      r := Set(r, ps[k].0, ps[k].1);
      k := k + 1;
    }
    assert ps[..k] == ps;
  }

  class Manager<P, H> {
    var commands: OMap<string, Command<P, H>>
    var globalActions: OMap<string, H>
    var globalHandlers: OMap<string, H>
    var globalMiddleware: seq<H>

    /** Keys are unique and every command is registered under its own name. */
    ghost predicate Valid()
      reads this
    {
      UniqueKeys(commands) && UniqueKeys(globalActions) && UniqueKeys(globalHandlers)
      && forall i :: 0 <= i < |commands| ==> commands[i].0 == commands[i].1.name
    }

    constructor ()
      ensures commands == [] && globalActions == [] && globalHandlers == [] && globalMiddleware == []
      ensures Valid()
    {
      commands := [];
      globalActions := [];
      globalHandlers := [];
      globalMiddleware := [];
    }

    /** `getCommand`: the command registered under `n`, if any. */
    function GetCommand(n: string): (r: Option<Command<P, H>>)
      reads this
      ensures r.Some? <==> HasKey(commands, n)
      ensures Valid() && r.Some? ==> r.value.name == n
    {
      Get(commands, n)
    }

    /** Registering a name again replaces the command (last wins) in its old
        place, so the registry does not grow; a new name is appended. */
    method RegisterCommand(c: Command<P, H>)
      requires Valid()
      modifies this
      ensures Valid()
      ensures GetCommand(c.name) == Some(c)
      ensures forall n :: n != c.name ==> GetCommand(n) == old(GetCommand(n))
      ensures Keys(commands) == if old(HasKey(commands, c.name)) then old(Keys(commands)) else old(Keys(commands)) + [c.name]
      ensures |commands| == if old(HasKey(commands, c.name)) then old(|commands|) else old(|commands|) + 1
      ensures globalActions == old(globalActions) && globalHandlers == old(globalHandlers)
      ensures globalMiddleware == old(globalMiddleware)
    {
      SetSpec(commands, c.name, c);
      commands := Set(commands, c.name, c);
    }

    method RegisterGlobalAction(actionName: string, handler: H)
      requires Valid()
      modifies this
      ensures Valid()
      ensures Get(globalActions, actionName) == Some(handler)
      ensures forall a :: a != actionName ==> Get(globalActions, a) == Get(old(globalActions), a)
      ensures Keys(globalActions) == if old(HasKey(globalActions, actionName)) then old(Keys(globalActions)) else old(Keys(globalActions)) + [actionName]
      ensures commands == old(commands) && globalHandlers == old(globalHandlers)
      ensures globalMiddleware == old(globalMiddleware)
    {
      SetSpec(globalActions, actionName, handler);
      globalActions := Set(globalActions, actionName, handler);
    }

    method RegisterGlobalHandler(condition: string, handler: H)
      requires Valid()
      modifies this
      ensures Valid()
      ensures Get(globalHandlers, condition) == Some(handler)
      ensures forall a :: a != condition ==> Get(globalHandlers, a) == Get(old(globalHandlers), a)
      ensures Keys(globalHandlers) == if old(HasKey(globalHandlers, condition)) then old(Keys(globalHandlers)) else old(Keys(globalHandlers)) + [condition]
      ensures commands == old(commands) && globalActions == old(globalActions)
      ensures globalMiddleware == old(globalMiddleware)
    {
      SetSpec(globalHandlers, condition, handler);
      globalHandlers := Set(globalHandlers, condition, handler);
    }

    method AddGlobalMiddleware(m: H)
      modifies this
      ensures globalMiddleware == old(globalMiddleware) + [m]
      ensures commands == old(commands) && globalActions == old(globalActions)
      ensures globalHandlers == old(globalHandlers)
    {
      globalMiddleware := globalMiddleware + [m];
    }

    /** `getCommandsWithActiveSession`: the registry scanned in order, keeping
        the commands that have `hasActiveSession` and report true for `user`. */
    method GetCommandsWithActiveSession(user: UserId) returns (r: seq<Command<P, H>>)
      ensures r == WithSession(commands, user)
      ensures forall c :: c in r ==> exists i :: 0 <= i < |commands| && commands[i].1 == c && Active(c, user)
      ensures forall i :: 0 <= i < |commands| && Active(commands[i].1, user) ==> commands[i].1 in r
    {
      r := [];
      var i := 0;
      while i < |commands|
        invariant 0 <= i <= |commands|
        invariant r == WithSession(commands[..i], user)
      {
        var c := commands[i].1;
        assert commands[..i + 1][..i] == commands[..i];
        if c.isTemplate && c.HasActiveSession(user) {
          r := r + [c];
        }
        i := i + 1;
      }
      assert commands[..i] == commands;
      WithSessionMembers(commands, user);
    }

    /** The merge shared by `getAllActions` and `getAllHandlers`. */
    method Merge(globals: OMap<string, H>, which: Table) returns (r: OMap<string, H>)
      ensures r == AllEntries(globals, Snapshot(commands, which))
    {
      var ts := Snapshot(commands, which);
      r := MergeTables(globals, ts);
      assert ts == Snapshot(commands, which);
    }

    /** `getAllActions` */
    method GetAllActions() returns (r: OMap<string, H>)
      ensures r == AllEntries(globalActions, Snapshot(commands, Actions))
    {
      r := Merge(globalActions, Actions);
    }

    /** `getAllHandlers` */
    method GetAllHandlers() returns (r: OMap<string, H>)
      ensures r == AllEntries(globalHandlers, Snapshot(commands, Handlers))
    {
      r := Merge(globalHandlers, Handlers);
    }
  }
}
