/**
 * The tenant process, mirror_bot.js: the owner-only and premium-only checks
 * over the tenant's own data directory, the filter that decides which
 * command modules a tenant loads, the tenant-scoped owner and premium list
 * commands, the two name commands, and the uptime text of `/start`.
 */
module MirrorBot {
  import opened Wrappers
  import opened Strings
  import opened DataFiles
  import opened Tenants
  import MirrorSecurity

  // ---------------------------------------------------------------------
  // Access checks
  // ---------------------------------------------------------------------

  /** `createMirrorOwnerOnly`: the sender is in the tenant's `owners.json`
      (a missing file reads as no owners). */
  predicate OwnerOnly(d: DataDir, user: int) {
    user in IdsOf(d, Owners)
  }

  /** `createMirrorPremiumOnly`: the sender is an owner or a premium user. */
  predicate PremiumOnly(d: DataDir, user: int) {
    user in IdsOf(d, Owners) || user in IdsOf(d, Premiums)
  }

  /** Every owner passes the premium check; with no files nobody passes;
      in a freshly set-up tenant exactly its owner passes both. */
  lemma AccessFacts(d: DataDir, user: int, ownerId: int, botName: string)
    ensures OwnerOnly(d, user) ==> PremiumOnly(d, user)
    ensures Owners !in d && Premiums !in d ==> !PremiumOnly(d, user)
    ensures OwnerOnly(MirrorDefaults(ownerId, botName), user) <==> user == ownerId
    ensures PremiumOnly(MirrorDefaults(ownerId, botName), user) <==> user == ownerId
  {
  }

  // ---------------------------------------------------------------------
  // Which command modules a tenant loads
  // ---------------------------------------------------------------------

  /** What the loader sees of a module: its `name` and whether it exports a
      `register` function. */
  datatype CommandModule = CommandModule(name: string, hasRegister: bool)

  datatype LoadOutcome =
    | BlockedDangerous
    | TenantScoped(name: string)
    | Registered(name: string)
    | NotLoaded

  /** The decision for one module: a dangerous name is skipped; a module
      with `register` is loaded, in its tenant-scoped form when it is one
      of the owner commands; anything else is not loaded. */
  function Classify(m: CommandModule): LoadOutcome
  {
    if m.name in DangerousCommands then BlockedDangerous
    else if !m.hasRegister then NotLoaded
    else if m.name in AllowedOwnerCommands then TenantScoped(m.name)
    else Registered(m.name)
  }

  /** No command name is both dangerous and tenant-scoped. */
  lemma ListsDisjoint()
    ensures forall c :: c in DangerousCommands ==> c !in AllowedOwnerCommands
  {
  }

  /** The loop of `loadMirrorCommands` over the modules, in order. */
  method LoadMirrorCommands(modules: seq<CommandModule>) returns (outcomes: seq<LoadOutcome>)
    ensures |outcomes| == |modules|
    ensures forall i :: 0 <= i < |modules| ==>
      (outcomes[i].BlockedDangerous? <==> modules[i].name in DangerousCommands)
    ensures forall i :: 0 <= i < |modules| ==>
      (outcomes[i].TenantScoped? || outcomes[i].Registered? <==>
        modules[i].name !in DangerousCommands && modules[i].hasRegister)
    ensures forall i :: 0 <= i < |modules| && (outcomes[i].TenantScoped? || outcomes[i].Registered?) ==>
      outcomes[i].name == modules[i].name
      && (outcomes[i].TenantScoped? <==> modules[i].name in AllowedOwnerCommands)
  {
    outcomes := [];
    var i := 0;
    while i < |modules|
      invariant 0 <= i <= |modules|
      invariant |outcomes| == i
      invariant forall j :: 0 <= j < i ==> outcomes[j] == Classify(modules[j])
    {
      outcomes := outcomes + [Classify(modules[i])];
      i := i + 1;
    }
  }

  // ---------------------------------------------------------------------
  // Arguments
  // ---------------------------------------------------------------------

  datatype IdArg = MissingArg | NaN | Id(id: int)

  /** `text.split(" ")` must have a second part, and `parseInt` must read a
      number from it; further parts are ignored. */
  function ParseIdArg(text: string): IdArg
  {
    var args := Split(text, ' ');
    if |args| < 2 then MissingArg
    else match ParseInt(args[1])
      case None => NaN
      case Some(n) => Id(n)
  }

  /** The command, a space, the decimal id and any further words give back
      the id. */
  lemma IdArgRoundTrip(command: string, n: int, more: seq<string>)
    requires ' ' !in command
    requires forall i :: 0 <= i < |more| ==> ' ' !in more[i]
    ensures ParseIdArg(Join([command, IntToString(n)] + more, ' ')) == Id(n)
  {
    var parts := [command, IntToString(n)] + more;
    PartsWithoutSpace(command, n, more);
    SplitJoin(parts, ' ');
    ParseIntRoundTrip(n);
  }

  lemma PartsWithoutSpace(command: string, n: int, more: seq<string>)
    requires ' ' !in command
    requires forall i :: 0 <= i < |more| ==> ' ' !in more[i]
    ensures var parts := [command, IntToString(n)] + more;
      forall i :: 0 <= i < |parts| ==> ' ' !in parts[i]
  {
    var parts := [command, IntToString(n)] + more;
    NoSpaceInNumber(n);
    forall i | 0 <= i < |parts|
      ensures ' ' !in parts[i]
    {
      if i >= 2 {
        assert parts[2..] == more;
        assert parts[i] == parts[2..][i - 2];
      }
    }
  }

  lemma NoSpaceInNumber(n: int)
    ensures ' ' !in IntToString(n)
  {
    var s := if n < 0 then NatToString(-n) else NatToString(n);
    assert forall k :: 0 <= k < |s| ==> s[k] != ' ';
    if n < 0 {
      assert IntToString(n) == "-" + s;
      assert forall k :: 0 <= k < |IntToString(n)| ==> IntToString(n)[k] != ' ' by {
        forall k | 0 <= k < |IntToString(n)|
          ensures IntToString(n)[k] != ' '
        {
          if k > 0 {
            assert IntToString(n)[k] == s[k - 1];
          }
        }
      }
    }
  }

  /** A command text without any space has no argument. */
  lemma IdArgMissing(text: string)
    requires ' ' !in text
    ensures ParseIdArg(text) == MissingArg
  {
    assert FindChar(text, ' ') == |text|;
  }

  // ---------------------------------------------------------------------
  // Owner and premium lists
  // ---------------------------------------------------------------------

  /** `ids.filter(id => id !== u)` */
  function RemoveAll(ids: seq<int>, u: int): (r: seq<int>)
    ensures |r| <= |ids|
  {
    if ids == [] then []
    else (if ids[0] == u then [] else [ids[0]]) + RemoveAll(ids[1..], u)
  }

  /** The filter drops every copy of `u` and keeps every other id with its
      multiplicity. */
  lemma {:induction false} RemoveAllSpec(ids: seq<int>, u: int)
    ensures multiset(RemoveAll(ids, u)) == multiset(ids)[u := 0]
    ensures forall x :: x in RemoveAll(ids, u) <==> x in ids && x != u
  {
    if ids != [] {
      RemoveAllSpec(ids[1..], u);
      assert ids == [ids[0]] + ids[1..];
    }
    assert forall x :: x in RemoveAll(ids, u) <==> x in multiset(RemoveAll(ids, u));
  }

  /** The filter works piecewise, so it keeps the order of the ids it keeps. */
  lemma {:induction false} RemoveAllAppend(a: seq<int>, b: seq<int>, u: int)
    ensures RemoveAll(a + b, u) == RemoveAll(a, u) + RemoveAll(b, u)
  {
    if a != [] {
      RemoveAllAppend(a[1..], b, u);
      assert (a + b)[1..] == a[1..] + b;
    } else {
      assert a + b == b;
    }
  }

  /** Filtering an id that is not there changes nothing; the first id stays
      first when it is not the one removed. */
  lemma RemoveAllKeeps(ids: seq<int>, u: int)
    ensures u !in ids ==> RemoveAll(ids, u) == ids
    ensures |ids| > 0 && ids[0] != u ==> |RemoveAll(ids, u)| > 0 && RemoveAll(ids, u)[0] == ids[0]
  {
    if u !in ids {
      RemoveAllSpec(ids, u);
      RemoveAllAbsent(ids, u);
    }
  }

  lemma {:induction false} RemoveAllAbsent(ids: seq<int>, u: int)
    requires u !in ids
    ensures RemoveAll(ids, u) == ids
  {
    if ids != [] {
      assert u !in ids[1..];
      RemoveAllAbsent(ids[1..], u);
      assert ids == [ids[0]] + ids[1..];
    }
  }

  /** Neither adding an absent id nor filtering creates a duplicate. */
  lemma ListsStayUnique(ids: seq<int>, u: int)
    requires MirrorSecurity.NoDuplicates(ids)
    ensures u !in ids ==> MirrorSecurity.NoDuplicates(ids + [u])
    ensures MirrorSecurity.NoDuplicates(RemoveAll(ids, u))
  {
    RemoveAllUnique(ids, u);
  }

  lemma {:induction false} RemoveAllUnique(ids: seq<int>, u: int)
    requires MirrorSecurity.NoDuplicates(ids)
    ensures MirrorSecurity.NoDuplicates(RemoveAll(ids, u))
  {
    if ids != [] {
      var tail := ids[1..];
      assert MirrorSecurity.NoDuplicates(tail) by {
        forall i, j | 0 <= i < j < |tail|
          ensures tail[i] != tail[j]
        {
          assert tail[i] == ids[i + 1] && tail[j] == ids[j + 1];
        }
      }
      RemoveAllUnique(tail, u);
      RemoveAllSpec(tail, u);
      assert ids[0] !in tail by {
        forall j | 0 <= j < |tail|
          ensures tail[j] != ids[0]
        {
          assert tail[j] == ids[j + 1];
        }
      }
    }
  }

  datatype ListCommandName = AddOwner | DelOwner | AddPrem | DelPrem

  /** The file a list command works on. */
  function ListFile(c: ListCommandName): FileName
  {
    if c == AddOwner || c == DelOwner then Owners else Premiums
  }

  datatype Reply =
    | NotOwner
    | Usage
    | NotANumber
    | AlreadyListed(id: int)
    | NotListed(id: int)
    | PrimaryOwner(id: int)
    | Added(id: int)
    | Removed(id: int)
    | NameSet(value: string)

  /** One list command sent by `user`: the owner check, the argument check,
      then add-if-absent or remove-if-present; `delowner` refuses the first
      owner of the list. */
  function ListCommand(d: DataDir, c: ListCommandName, user: int, text: string): (DataDir, Reply)
  {
    if !OwnerOnly(d, user) then (d, NotOwner)
    else match ParseIdArg(text)
      case MissingArg => (d, Usage)
      case NaN => (d, NotANumber)
      case Id(u) => ListChange(d, c, u)
  }

  /** The list change itself, once the sender and the id have passed. */
  function ListChange(d: DataDir, c: ListCommandName, u: int): (DataDir, Reply)
  {
    var ids := IdsOf(d, ListFile(c));
    if c == AddOwner || c == AddPrem then
      if u in ids then (d, AlreadyListed(u))
      else (d[ListFile(c) := IdList(ids + [u])], Added(u))
    else if u !in ids then (d, NotListed(u))
    else if c == DelOwner && ids[0] == u then (d, PrimaryOwner(u))
    else (d[ListFile(c) := IdList(RemoveAll(ids, u))], Removed(u))
  }

  /** An add command changes something only when an owner sends it with a
      readable id that is not yet listed; then it appends exactly that id
      to the command's own file and changes nothing else. */
  lemma AddCommandSpec(d: DataDir, c: ListCommandName, user: int, text: string)
    requires c == AddOwner || c == AddPrem
    ensures var (d', reply) := ListCommand(d, c, user, text);
      var ids := IdsOf(d, ListFile(c));
      && (!OwnerOnly(d, user) ==> reply == NotOwner)
      && (reply.Added? <==> OwnerOnly(d, user) && ParseIdArg(text).Id? && ParseIdArg(text).id !in ids)
      && (reply.Added? ==> reply.id == ParseIdArg(text).id && d' == d[ListFile(c) := IdList(ids + [reply.id])])
      && (!reply.Added? ==> d' == d)
  {
    if OwnerOnly(d, user) {
      match ParseIdArg(text)
      case MissingArg =>
      case NaN =>
      case Id(u) =>
        var ids := IdsOf(d, ListFile(c));
        if u in ids {
          assert ListChange(d, c, u) == (d, AlreadyListed(u));
        } else {
          assert ListChange(d, c, u) == (d[ListFile(c) := IdList(ids + [u])], Added(u));
        }
    }
  }

  /** A remove command changes something only when an owner sends it with
      a listed id (for `delowner`, not the first owner); then it filters
      every copy of that id out of the command's own file, keeping the
      other ids, and changes nothing else. */
  lemma RemoveCommandSpec(d: DataDir, c: ListCommandName, user: int, text: string)
    requires c == DelOwner || c == DelPrem
    ensures var (d', reply) := ListCommand(d, c, user, text);
      var ids := IdsOf(d, ListFile(c));
      && (!OwnerOnly(d, user) ==> reply == NotOwner)
      && (reply.Removed? <==>
            OwnerOnly(d, user) && ParseIdArg(text).Id? && ParseIdArg(text).id in ids
            && !(c == DelOwner && ids[0] == ParseIdArg(text).id))
      && (reply.Removed? ==>
            reply.id == ParseIdArg(text).id && d' == d[ListFile(c) := IdList(RemoveAll(ids, reply.id))])
      && (!reply.Removed? ==> d' == d)
  {
    if OwnerOnly(d, user) {
      match ParseIdArg(text)
      case MissingArg =>
      case NaN =>
      case Id(u) =>
        var ids := IdsOf(d, ListFile(c));
        if u !in ids {
          assert ListChange(d, c, u) == (d, NotListed(u));
        } else if c == DelOwner && ids[0] == u {
          assert ListChange(d, c, u) == (d, PrimaryOwner(u));
        } else {
          assert ListChange(d, c, u) == (d[ListFile(c) := IdList(RemoveAll(ids, u))], Removed(u));
        }
    }
  }

  /** A removal that succeeds takes out every copy of the id and keeps
      every other id of the file as often as it was there. */
  lemma RemovedKeepsOthers(d: DataDir, c: ListCommandName, user: int, text: string)
    requires c == DelOwner || c == DelPrem
    requires ListCommand(d, c, user, text).1.Removed?
    ensures var (d', reply) := ListCommand(d, c, user, text);
      multiset(IdsOf(d', ListFile(c))) == multiset(IdsOf(d, ListFile(c)))[reply.id := 0]
  {
    RemoveCommandSpec(d, c, user, text);
    var u := ListCommand(d, c, user, text).1.id;
    var ids := IdsOf(d, ListFile(c));
    RemoveAllSpec(ids, u);
    assert IdsOf(d[ListFile(c) := IdList(RemoveAll(ids, u))], ListFile(c)) == RemoveAll(ids, u);
  }

  /** The first owner of the list is never removed: whatever list command
      anyone sends, it stays the first owner. */
  lemma {:induction false} PrimaryOwnerStays(d: DataDir, c: ListCommandName, user: int, text: string)
    requires |IdsOf(d, Owners)| > 0
    ensures var d' := ListCommand(d, c, user, text).0;
      |IdsOf(d', Owners)| > 0 && IdsOf(d', Owners)[0] == IdsOf(d, Owners)[0]
  {
    var (d', reply) := ListCommand(d, c, user, text);
    if reply.Removed? && c == DelOwner {
      RemoveAllKeeps(IdsOf(d, Owners), reply.id);
    }
  }

  /** List commands never introduce a duplicate id. */
  lemma ListCommandUnique(d: DataDir, c: ListCommandName, user: int, text: string, f: FileName)
    requires MirrorSecurity.NoDuplicates(IdsOf(d, f))
    ensures MirrorSecurity.NoDuplicates(IdsOf(ListCommand(d, c, user, text).0, f))
  {
    if OwnerOnly(d, user) && ParseIdArg(text).Id? {
      ListChangeUnique(d, c, ParseIdArg(text).id, f);
    }
  }

  lemma ListChangeUnique(d: DataDir, c: ListCommandName, u: int, f: FileName)
    requires MirrorSecurity.NoDuplicates(IdsOf(d, f))
    ensures MirrorSecurity.NoDuplicates(IdsOf(ListChange(d, c, u).0, f))
  {
    if f == ListFile(c) {
      var ids := IdsOf(d, f);
      ListsStayUnique(ids, u);
      assert IdsOf(d[f := IdList(ids + [u])], f) == ids + [u];
      assert IdsOf(d[f := IdList(RemoveAll(ids, u))], f) == RemoveAll(ids, u);
    }
  }

  // ---------------------------------------------------------------------
  // Bot name and owner name
  // ---------------------------------------------------------------------

  datatype NameField = BotNameField | OwnerNameField

  /** The record the name commands start from when `botinfo.json` is
      missing. */
  const TenantInfoDefault := BotInfo("Mirror Bot", "Mirror Owner", None)

  function InfoOf(d: DataDir): BotInfo
  {
    if BotInfoFile in d && d[BotInfoFile].BotInfoJson? then d[BotInfoFile].info else TenantInfoDefault
  }

  /** `/setnamebot` and `/setownername` sent by `user`. */
  function NameCommand(d: DataDir, field: NameField, user: int, text: string): (DataDir, Reply)
  {
    if !OwnerOnly(d, user) then (d, NotOwner)
    else match ArgText(text)
      case None => (d, Usage)
      case Some(v) =>
        var info := InfoOf(d);
        var info' := if field == BotNameField then info.(botName := v) else info.(ownerName := v);
        (d[BotInfoFile := BotInfoJson(info')], NameSet(v))
  }

  /** A name command from an owner with some text after the command sets
      that one field to the rest of the text and keeps the other fields
      and every other file; otherwise nothing changes. */
  lemma NameCommandSpec(d: DataDir, field: NameField, user: int, text: string)
    ensures var (d', reply) := NameCommand(d, field, user, text);
      && (reply.NameSet? <==> OwnerOnly(d, user) && ' ' in text)
      && (!reply.NameSet? ==> d' == d)
      && (reply.NameSet? ==>
            reply.value == text[FindChar(text, ' ') + 1..]
            && BotInfoFile in d' && d'[BotInfoFile].BotInfoJson?
            && var info := d'[BotInfoFile].info;
            (if field == BotNameField then info.botName else info.ownerName) == reply.value
            && (field == BotNameField ==> info.ownerName == InfoOf(d).ownerName)
            && (field == OwnerNameField ==> info.botName == InfoOf(d).botName)
            && info.thumbnail == InfoOf(d).thumbnail
            && forall f :: f != BotInfoFile ==> (f in d' <==> f in d) && (f in d ==> d'[f] == d[f]))
  {
    ArgTextIs(text);
  }

  // ---------------------------------------------------------------------
  // The tenant's data directory as state
  // ---------------------------------------------------------------------

  /** The files under the tenant's data directory, which the command
      handlers read and rewrite. */
  class TenantStore {
    var files: DataDir

    constructor(files: DataDir)
      ensures this.files == files
    {
      this.files := files;
    }

    /** `/addowner` and `/addprem`: push the id and write the file back. */
    method Add(c: ListCommandName, user: int, text: string) returns (reply: Reply)
      requires c == AddOwner || c == AddPrem
      modifies this
      ensures (files, reply) == ListCommand(old(files), c, user, text)
    {
      if !OwnerOnly(files, user) {
        return NotOwner;
      }
      var arg := ParseIdArg(text);
      if arg.MissingArg? {
        return Usage;
      } else if arg.NaN? {
        return NotANumber;
      }
      var ids := IdsOf(files, ListFile(c));
      if arg.id in ids {
        return AlreadyListed(arg.id);
      }
      ids := ids + [arg.id];
      files := files[ListFile(c) := IdList(ids)];
      reply := Added(arg.id);
    }

    /** `/delowner` and `/delprem`: filter the id out and write the file
        back. */
    method Remove(c: ListCommandName, user: int, text: string) returns (reply: Reply)
      requires c == DelOwner || c == DelPrem
      modifies this
      ensures (files, reply) == ListCommand(old(files), c, user, text)
    {
      if !OwnerOnly(files, user) {
        return NotOwner;
      }
      var arg := ParseIdArg(text);
      if arg.MissingArg? {
        return Usage;
      } else if arg.NaN? {
        return NotANumber;
      }
      var ids := IdsOf(files, ListFile(c));
      if arg.id !in ids {
        return NotListed(arg.id);
      }
      if c == DelOwner && ids[0] == arg.id {
        return PrimaryOwner(arg.id);
      }
      ids := RemoveAll(ids, arg.id);
      files := files[ListFile(c) := IdList(ids)];
      reply := Removed(arg.id);
    }

    /** `/setnamebot` and `/setownername`: overwrite one field of the bot
        info and write it back. */
    method SetName(field: NameField, user: int, text: string) returns (reply: Reply)
      modifies this
      ensures (files, reply) == NameCommand(old(files), field, user, text)
    {
      if !OwnerOnly(files, user) {
        return NotOwner;
      }
      var arg := ArgText(text);
      if arg.None? {
        return Usage;
      }
      var info := InfoOf(files);
      if field == BotNameField {
        info := info.(botName := arg.value);
      } else {
        info := info.(ownerName := arg.value);
      }
      files := files[BotInfoFile := BotInfoJson(info)];
      reply := NameSet(arg.value);
    }
  }

  // ---------------------------------------------------------------------
  // Uptime in /start
  // ---------------------------------------------------------------------

  datatype Uptime = Uptime(days: nat, hours: nat, minutes: nat, seconds: nat)

  /** `q` and `r` are the quotient and remainder of `u` by `m`. */
  lemma DivModIs(u: int, m: int, q: int, r: int)
    requires m > 0 && 0 <= r < m && u == q * m + r
    ensures u / m == q && u % m == r
  {
    var q', r' := u / m, u % m;
    assert u == q' * m + r';
    assert (q - q') * m == r' - r by {
      assert (q - q') * m == q * m - q' * m;
    }
    if q > q' {
      AtLeastOnce(q - q', m);
    } else if q < q' {
      AtLeastOnce(q' - q, m);
    }
  }

  lemma AtLeastOnce(k: int, m: int)
    requires k >= 1 && m > 0
    ensures k * m >= m
  {
    assert k * m == (k - 1) * m + m;
  }

  /** Whole days, hours, minutes and seconds of `u` seconds, each field
      taken with `Math.floor` as `/start` does. */
  function Decompose(u: nat): (r: Uptime)
    ensures r.days * 86400 + r.hours * 3600 + r.minutes * 60 + r.seconds == u
    ensures r.hours < 24 && r.minutes < 60 && r.seconds < 60
  {
    var days := u / 86400;
    var r1 := u % 86400;
    var hours := r1 / 3600;
    var r2 := r1 % 3600;
    assert u == (24 * days + hours) * 3600 + r2;
    DivModIs(u, 3600, 24 * days + hours, r2);
    var minutes := r2 / 60;
    var seconds := r2 % 60;
    assert u == (60 * (24 * days + hours) + minutes) * 60 + seconds;
    DivModIs(u, 60, 60 * (24 * days + hours) + minutes, seconds);
    assert hours < 24;
    Uptime(days, hours, minutes, seconds)
  }

  /** The decomposition is the only one with those bounds. */
  lemma DecomposeUnique(u: nat, p: Uptime)
    requires p.days * 86400 + p.hours * 3600 + p.minutes * 60 + p.seconds == u
    requires p.hours < 24 && p.minutes < 60 && p.seconds < 60
    ensures Decompose(u) == p
  {
    var r := p.hours * 3600 + p.minutes * 60 + p.seconds;
    DivModIs(u, 86400, p.days, r);
    DivModIs(r, 3600, p.hours, p.minutes * 60 + p.seconds);
    DivModIs(p.minutes * 60 + p.seconds, 60, p.minutes, p.seconds);
  }

  datatype TimeUnit = Day | Hour | Minute | Second

  function Weight(t: TimeUnit): nat {
    match t
    case Day => 86400
    case Hour => 3600
    case Minute => 60
    case Second => 1
  }

  function Label(t: TimeUnit): string {
    match t
    case Day => "hari"
    case Hour => "jam"
    case Minute => "menit"
    case Second => "detik"
  }

  datatype Part = Part(value: nat, unit: TimeUnit)

  /** The parts `/start` prints: days, hours and minutes only when they are
      not zero, seconds always. */
  function Shown(p: Uptime): seq<Part>
  {
    (if p.days > 0 then [Part(p.days, Day)] else [])
    + (if p.hours > 0 then [Part(p.hours, Hour)] else [])
    + (if p.minutes > 0 then [Part(p.minutes, Minute)] else [])
    + [Part(p.seconds, Second)]
  }

  /** The number of seconds the parts stand for. */
  function Total(parts: seq<Part>): nat
  {
    if parts == [] then 0 else parts[0].value * Weight(parts[0].unit) + Total(parts[1..])
  }

  lemma {:induction false} TotalAppend(a: seq<Part>, b: seq<Part>)
    ensures Total(a + b) == Total(a) + Total(b)
  {
    if a != [] {
      TotalAppend(a[1..], b);
      assert (a + b)[1..] == a[1..] + b;
    } else {
      assert a + b == b;
    }
  }

  /** Leaving out the zero parts loses nothing: the printed parts add up to
      the uptime. */
  lemma ShownTotal(u: nat)
    ensures Total(Shown(Decompose(u))) == u
  {
    var p := Decompose(u);
    var a := if p.days > 0 then [Part(p.days, Day)] else [];
    var b := if p.hours > 0 then [Part(p.hours, Hour)] else [];
    var c := if p.minutes > 0 then [Part(p.minutes, Minute)] else [];
    var d := [Part(p.seconds, Second)];
    assert Total(a) == p.days * 86400 by { TotalOptional(p.days, Day); }
    assert Total(b) == p.hours * 3600 by { TotalOptional(p.hours, Hour); }
    assert Total(c) == p.minutes * 60 by { TotalOptional(p.minutes, Minute); }
    assert Total(d) == p.seconds by { TotalOptional(p.seconds, Second); }
    TotalAppend(a, b);
    TotalAppend(a + b, c);
    TotalAppend(a + b + c, d);
  }

  /** A part printed only when not zero stands for its value in seconds. */
  lemma TotalOptional(v: nat, t: TimeUnit)
    ensures Total(if v > 0 then [Part(v, t)] else []) == v * Weight(t)
    ensures Total([Part(v, t)]) == v * Weight(t)
  {
    assert [Part(v, t)][1..] == [];
  }

  /** Seconds always come last and every earlier part is positive; a part
      is printed exactly when the uptime holds at least one of its unit
      beyond the larger units. */
  lemma ShownShape(u: nat)
    ensures var s := Shown(Decompose(u));
      |s| >= 1 && s[|s| - 1] == Part(u % 60, Second)
      && (forall i :: 0 <= i < |s| - 1 ==> s[i].value > 0)
      && (Part(u / 86400, Day) in s <==> u >= 86400)
      && ((exists h :: Part(h, Hour) in s) <==> u % 86400 >= 3600)
      && ((exists m :: Part(m, Minute) in s) <==> u % 3600 >= 60)
  {
    var p := Decompose(u);
    DivModIs(u, 86400, p.days, p.hours * 3600 + p.minutes * 60 + p.seconds);
    DivModIs(u, 3600, 24 * p.days + p.hours, p.minutes * 60 + p.seconds);
    DivModIs(u, 60, 1440 * p.days + 60 * p.hours + p.minutes, p.seconds);
  }

  /** One part as printed: the number, a space and the unit's name. */
  function Piece(p: Part): string {
    NatToString(p.value) + " " + Label(p.unit)
  }

  /** The parts in order, separated by `, `. */
  function Render(parts: seq<Part>): string
  {
    if parts == [] then ""
    else if |parts| == 1 then Piece(parts[0])
    else Piece(parts[0]) + ", " + Render(parts[1..])
  }

  /** Parts each followed by `, `: what the builder holds before the
      seconds are added. */
  function Lead(parts: seq<Part>): string
  {
    if parts == [] then "" else Piece(parts[0]) + ", " + Lead(parts[1..])
  }

  lemma {:induction false} LeadAppend(parts: seq<Part>, p: Part)
    ensures Lead(parts + [p]) == Lead(parts) + Piece(p) + ", "
  {
    if parts == [] {
      assert parts + [p] == [p];
    } else {
      var head, tail := Piece(parts[0]) + ", ", parts[1..];
      assert (parts + [p])[1..] == tail + [p];
      LeadAppend(tail, p);
      calc {
        Lead(parts + [p]);
        head + Lead(tail + [p]);
        head + (Lead(tail) + Piece(p) + ", ");
        { ConcatRegroup(head, Lead(tail), Piece(p), ", "); }
        (head + Lead(tail)) + Piece(p) + ", ";
        Lead(parts) + Piece(p) + ", ";
      }
    }
  }

  lemma ConcatRegroup(a: string, b: string, c: string, d: string)
    ensures a + (b + c + d) == a + b + c + d
  {
  }

  /** The lead followed by one last piece is the rendering of all parts. */
  lemma {:induction false} LeadThenLast(parts: seq<Part>, p: Part)
    ensures Lead(parts) + Piece(p) == Render(parts + [p])
  {
    if parts != [] {
      LeadThenLast(parts[1..], p);
      assert (parts + [p])[1..] == parts[1..] + [p];
    }
  }

  /** The `runtimeText +=` builder of `/start`. */
  method RuntimeText(u: nat) returns (runtimeText: string)
    ensures runtimeText == Render(Shown(Decompose(u)))
  {
    var p := Decompose(u);
    ghost var a := if p.days > 0 then [Part(p.days, Day)] else [];
    ghost var b := if p.hours > 0 then [Part(p.hours, Hour)] else [];
    ghost var c := if p.minutes > 0 then [Part(p.minutes, Minute)] else [];
    runtimeText := "";
    if p.days > 0 {
      LeadAppend([], Part(p.days, Day));
      assert [] + a == a;
      runtimeText := runtimeText + Piece(Part(p.days, Day)) + ", ";
    }
    assert runtimeText == Lead(a);
    if p.hours > 0 {
      LeadAppend(a, Part(p.hours, Hour));
      runtimeText := runtimeText + Piece(Part(p.hours, Hour)) + ", ";
    } else {
      assert a + b == a;
    }
    assert runtimeText == Lead(a + b);
    if p.minutes > 0 {
      LeadAppend(a + b, Part(p.minutes, Minute));
      runtimeText := runtimeText + Piece(Part(p.minutes, Minute)) + ", ";
    } else {
      assert a + b + c == a + b;
    }
    assert runtimeText == Lead(a + b + c);
    LeadThenLast(a + b + c, Part(p.seconds, Second));
    runtimeText := runtimeText + Piece(Part(p.seconds, Second));
  }
}
