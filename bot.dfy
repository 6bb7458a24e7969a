/**
 * bot.js: the main bot's routing of button callbacks and free text to the
 * registered commands, the creation of missing data files at start-up, and
 * the anti-link filter with its per-chat, per-user warning counter.
 */
module Bot {
  import opened Wrappers
  import opened OrderedMap
  import opened Strings
  import opened DataFiles
  import opened CommandTemplate
  import opened CommandManager

  // ---------------------------------------------------------------------
  // Callback queries
  // ---------------------------------------------------------------------

  /** A callback's data selects action `key` when it is the key itself or
      the key followed by `_` and anything. */
  predicate Matches(data: string, key: string) {
    data == key || StartsWith(data, key + "_")
  }

  /** The matching rule as a shape: `key`, or `key_` followed by any suffix. */
  lemma MatchesShape(data: string, key: string)
    ensures Matches(data, key) <==> data == key || exists rest :: data == key + "_" + rest
  {
    if StartsWith(data, key + "_") {
      var rest := data[|key| + 1..];
      assert data == key + "_" + rest;
    }
    if exists rest :: data == key + "_" + rest {
      var rest :| data == key + "_" + rest;
      assert data[..|key + "_"|] == key + "_";
    }
  }

  /** `menu_info_x` selects `menu_info`; `menu_infoo` does not. */
  lemma MatchExamples()
    ensures Matches("menu_info_x", "menu_info")
    ensures !Matches("menu_infoo", "menu_info")
  {
    assert "menu_info_x"[..10] == "menu_info_";
    assert "menu_infoo"[..10][9] == 'o';
  }

  /** Data that differs from a key at a position inside the key, or is too
      short to reach it, does not select that key. */
  lemma NoMatchAt(data: string, key: string, i: nat)
    requires i < |key| && (i < |data| ==> data[i] != key[i])
    ensures !Matches(data, key)
  {
    if |key + "_"| <= |data| {
      assert data[..|key + "_"|][i] == data[i];
      assert (key + "_")[i] == key[i];
    }
  }

  const ErrorAck := "Terjadi kesalahan saat memproses aksi."
  const NotFoundAck := "Aksi tidak ditemukan."

  /** How the callback scan ended: the handler at `index` ran and returned,
      or ran and threw, or no key matched. */
  datatype CallbackOutcome = Handled(index: nat) | Failed(index: nat) | NotFound

  /**
   * The `callback_query` handler: scan the merged actions in map order; the
   * first key that matches runs its handler and stops the scan, whether the
   * handler returns or throws. `run` stands for awaiting a handler;
   * `invoked` lists the positions of the handlers that ran and `acks` the
   * acknowledgements this loop sends itself.
   */
  method DispatchCallback<H>(actions: OMap<string, H>, data: string, run: H -> Completion)
    returns (outcome: CallbackOutcome, invoked: seq<nat>, acks: seq<string>)
    ensures outcome.NotFound? <==> forall i :: 0 <= i < |actions| ==> !Matches(data, actions[i].0)
    ensures !outcome.NotFound? ==>
      outcome.index < |actions| && Matches(data, actions[outcome.index].0)
      && (forall j :: 0 <= j < outcome.index ==> !Matches(data, actions[j].0))
      && (outcome.Handled? <==> run(actions[outcome.index].1).Returned?)
    ensures invoked == if outcome.NotFound? then [] else [outcome.index]
    ensures acks == match outcome case Handled(_) => [] case Failed(_) => [ErrorAck] case NotFound => [NotFoundAck]
  {
    var handled := false;
    outcome := NotFound;
    invoked := [];
    acks := [];
    var i := 0;
    while i < |actions|
      invariant 0 <= i <= |actions|
      invariant forall j :: 0 <= j < i ==> !Matches(data, actions[j].0)
      invariant !handled && outcome == NotFound && invoked == [] && acks == []
    {
      var key, handler := actions[i].0, actions[i].1;
      if data == key || StartsWith(data, key + "_") {
        invoked := [i];
        match run(handler) {
          case Returned =>
            outcome := Handled(i);
          case Threw(_) =>
            acks := acks + [ErrorAck];
            outcome := Failed(i);
        }
        handled := true;
        break;
      }
      i := i + 1;
    }
    if !handled {
      acks := acks + [NotFoundAck];
    }
  }

  // ---------------------------------------------------------------------
  // Free text
  // ---------------------------------------------------------------------

  /** What awaiting a text handler gives: exactly `true`, something else,
      or an exception. */
  datatype TextResult = True | NotTrue | Threw

  /** How text routing ended: the message started with `/` and went on to
      the command handlers; handler `handler` of the `command`-th command with
      a session claimed it; or nothing claimed it and it went on. */
  datatype TextOutcome = Bypassed | Claimed(command: nat, handler: nat) | PassedOn

  /** The text-handler maps of `cs`, in order. */
  function HandlerTables<P, H>(cs: seq<Command<P, H>>): (ts: seq<OMap<string, H>>)
    reads set i | 0 <= i < |cs| :: cs[i]
    ensures |ts| == |cs|
    ensures forall i :: 0 <= i < |cs| ==> ts[i] == TableOf(cs[i], Handlers)
  {
    if cs == [] then [] else HandlerTables(cs[..|cs| - 1]) + [TableOf(cs[|cs| - 1], Handlers)]
  }

  /** Handler position (a, b) comes before (c, d) in the scan. */
  predicate Earlier(a: nat, b: nat, c: nat, d: nat) {
    a < c || (a == c && b < d)
  }

  /** Handler `h` of table `c` returns exactly `true`, and no handler
      visited before it does. */
  predicate FirstClaimAt<H>(ts: seq<OMap<string, H>>, run: H -> TextResult, c: nat, h: nat) {
    && c < |ts| && h < |ts[c]| && run(ts[c][h].1) == True
    && forall a, b :: 0 <= a < |ts| && 0 <= b < |ts[a]| && Earlier(a, b, c, h) ==> run(ts[a][b].1) != True
  }

  /** No handler of any table returns exactly `true`. */
  predicate NoneClaims<H>(ts: seq<OMap<string, H>>, run: H -> TextResult) {
    forall a, b :: 0 <= a < |ts| && 0 <= b < |ts[a]| ==> run(ts[a][b].1) != True
  }

  /**
   * The `text` handler. Text whose trimmed form starts with `/` is left to
   * the command handlers. Otherwise the commands with an active session for
   * `user` are visited in registry order and their handlers in map order;
   * a handler that returns exactly `true` claims the message and ends the
   * scan, one that throws is skipped.
   */
  method RouteText<P, H>(m: Manager<P, H>, user: UserId, text: string, run: H -> TextResult)
    returns (outcome: TextOutcome)
    ensures outcome.Bypassed? <==> StartsWith(Trim(text), "/")
    ensures outcome.Claimed? ==>
      FirstClaimAt(HandlerTables(WithSession(m.commands, user)), run, outcome.command, outcome.handler)
    ensures outcome.PassedOn? ==> NoneClaims(HandlerTables(WithSession(m.commands, user)), run)
  {
    var messageText := Trim(text);
    if StartsWith(messageText, "/") {
      return Bypassed;
    }
    var cs := m.GetCommandsWithActiveSession(user);
    var ts := HandlerTables(cs);
    ghost var spec := HandlerTables(WithSession(m.commands, user));
    assert ts == spec;
    outcome := ScanHandlers(ts, run);
    assert spec == HandlerTables(WithSession(m.commands, user));
  }

  /** Handler tables visited in order: the first handler returning exactly
      `true` claims the message, and the ones before it did not. */
  method ScanHandlers<H>(ts: seq<OMap<string, H>>, run: H -> TextResult) returns (outcome: TextOutcome)
    ensures !outcome.Bypassed?
    ensures outcome.Claimed? ==> FirstClaimAt(ts, run, outcome.command, outcome.handler)
    ensures outcome.PassedOn? ==> NoneClaims(ts, run)
  {
    var i := 0;
    while i < |ts|
      invariant 0 <= i <= |ts|
      invariant forall a, b :: 0 <= a < i && 0 <= b < |ts[a]| ==> run(ts[a][b].1) != True
    {
      var j := FirstClaim(ts[i], run);
      if j < |ts[i]| {
        return Claimed(i, j);
      }
      i := i + 1;
    }
    return PassedOn;
  }

  /** The position of the first handler of `hs` that returns exactly
      `true`, or `|hs|` when none does. */
  method FirstClaim<H>(hs: OMap<string, H>, run: H -> TextResult) returns (j: nat)
    ensures j <= |hs|
    ensures j < |hs| ==> run(hs[j].1) == True
    ensures forall b :: 0 <= b < j ==> run(hs[b].1) != True
  {
    j := 0;
    while j < |hs|
      invariant j <= |hs|
      invariant forall b :: 0 <= b < j ==> run(hs[b].1) != True
    {
      if run(hs[j].1) == True {
        return;
      }
      j := j + 1;
    }
  }

  // ---------------------------------------------------------------------
  // Anti-link filter and warnings
  // ---------------------------------------------------------------------

  /** ASCII lower case, the part of `toLowerCase` that can produce the
      letters of `http`. */
  function Lower(c: char): char {
    if 'A' <= c <= 'Z' then (c as int + 32) as char else c
  }

  /** `s[i..]` starts with `pat` once lower-cased. */
  predicate LowerAt(s: string, i: nat, pat: string) {
    i + |pat| <= |s| && forall k :: 0 <= k < |pat| ==> Lower(s[i + k]) == pat[k]
  }

  /** A match of `https?://[^\s]+` starts at position `i` of the lower-cased text. */
  predicate LinkAt(s: string, i: nat) {
    (LowerAt(s, i, "http://") && i + 7 < |s| && !IsSpace(s[i + 7]))
    || (LowerAt(s, i, "https://") && i + 8 < |s| && !IsSpace(s[i + 8]))
  }

  /** The regular expression's `test`, scanning from position `i`. */
  function FindLink(s: string, i: nat): (found: bool)
    requires i <= |s|
    ensures found <==> exists k :: i <= k < |s| && LinkAt(s, k)
    decreases |s| - i
  {
    if i == |s| then false else LinkAt(s, i) || FindLink(s, i + 1)
  }

  predicate HasLink(s: string) {
    FindLink(s, 0)
  }

  /** What the anti-link handler did with a message. */
  datatype LinkOutcome =
    | NoLink
    | Exempt            // sender is an administrator or the creator
    | DeleteFailed      // deleting the message threw; no warning is counted
    | Warned(count: nat)
    | Kicked
    | KickFailed(count: nat)

  /** The warnings `user` has in `chat`; none recorded is 0. */
  function CountOf(w: WarnTable, chat: int, user: int): nat {
    if chat in w && user in w[chat] then w[chat][user] else 0
  }

  /**
   * One offending link from `user` in `chat`: the count goes up by one and
   * is saved; at 3 or more the user is kicked and the entry removed, but if
   * the kick throws the saved, raised count stays.
   */
  function Warn(w: WarnTable, chat: int, user: int, kickOk: bool): (r: (WarnTable, LinkOutcome))
    ensures chat in r.0
    ensures forall c :: c != chat ==> (c in r.0 <==> c in w) && (c in w ==> r.0[c] == w[c])
    ensures forall u :: u != user ==> CountOf(r.0, chat, u) == CountOf(w, chat, u)
    ensures CountOf(w, chat, user) + 1 < 3 ==> r.1 == Warned(CountOf(w, chat, user) + 1) && CountOf(r.0, chat, user) == CountOf(w, chat, user) + 1
    ensures CountOf(w, chat, user) + 1 >= 3 && kickOk ==> r.1 == Kicked && user !in r.0[chat]
    ensures CountOf(w, chat, user) + 1 >= 3 && !kickOk ==> r.1 == KickFailed(CountOf(w, chat, user) + 1) && CountOf(r.0, chat, user) == CountOf(w, chat, user) + 1
  {
    var inner := if chat in w then w[chat] else map[];
    var n := CountOf(w, chat, user) + 1;
    var saved := w[chat := inner[user := n]];
    if n >= 3 then
      if kickOk then (saved[chat := saved[chat] - {user}], Kicked) else (saved, KickFailed(n))
    else (saved, Warned(n))
  }

  /** With kicks succeeding, nobody's count ever reaches 3. */
  lemma WarnStaysBelowThree(w: WarnTable, chat: int, user: int)
    requires forall c, u :: c in w && u in w[c] ==> w[c][u] < 3
    ensures var r := Warn(w, chat, user, true).0; forall c, u :: c in r && u in r[c] ==> r[c][u] < 3
  {
  }

  /** A first-time offender is warned once, twice, then kicked, and the
      entry is gone afterwards. */
  lemma ThirdLinkKicks(w: WarnTable, chat: int, user: int)
    requires CountOf(w, chat, user) == 0
    ensures var (w1, o1) := Warn(w, chat, user, true);
            var (w2, o2) := Warn(w1, chat, user, true);
            var (w3, o3) := Warn(w2, chat, user, true);
            o1 == Warned(1) && o2 == Warned(2) && o3 == Kicked && CountOf(w3, chat, user) == 0
  {
  }

  /** The main bot's `data/` directory. */
  class Store {
    var files: DataDir

    constructor (files: DataDir)
      ensures this.files == files
    {
      this.files := files;
    }

    /** Start-up: every missing data file is created with its default. */
    method Init() returns (written: seq<FileName>)
      modifies this
      ensures files == FillFiles(old(files), BotDefaults(), BotFileOrder)
      ensures Complete(files)
      ensures forall f :: f in written <==> f !in old(files)
    {
      files, written := CreateMissing(files, BotDefaults(), BotFileOrder);
      FillFilesSpec(old(files), BotDefaults(), BotFileOrder);
      forall f: FileName
        ensures f in files && f in BotFileOrder
      {
        match f
        case Warns =>
        case Owners =>
        case Premiums =>
        case BotInfoFile =>
      }
    }

    /**
     * The anti-link handler for a message from `user` in `chat`. Only a
     * text containing a link from a member who is neither administrator nor
     * creator is acted on; `deleteOk` and `kickOk` say whether deleting the
     * message and kicking the member succeed.
     */
    method OnMessage(chat: int, user: int, text: Option<string>, isAdmin: bool, deleteOk: bool, kickOk: bool)
      returns (outcome: LinkOutcome)
      modifies this
      ensures text.None? || !HasLink(text.value) ==> outcome == NoLink && files == old(files)
      ensures text.Some? && HasLink(text.value) && isAdmin ==> outcome == Exempt && files == old(files)
      ensures text.Some? && HasLink(text.value) && !isAdmin && !deleteOk ==> outcome == DeleteFailed && files == old(files)
      ensures text.Some? && HasLink(text.value) && !isAdmin && deleteOk ==>
        var (w, o) := Warn(WarnsOf(old(files)), chat, user, kickOk);
        outcome == o && files == old(files)[Warns := WarnsJson(w)]
    {
      if text.None? || !HasLink(text.value) {
        return NoLink;
      }
      if isAdmin {
        return Exempt;
      }
      if !deleteOk {
        return DeleteFailed;
      }
      var warns := WarnsOf(files);
      var inner := if chat in warns then warns[chat] else map[];
      var count := if user in inner then inner[user] else 0;
      count := count + 1;
      warns := warns[chat := inner[user := count]];
      files := files[Warns := WarnsJson(warns)];
      if count >= 3 {
        if !kickOk {
          return KickFailed(count);
        }
        warns := warns[chat := warns[chat] - {user}];
        files := files[Warns := WarnsJson(warns)];
        outcome := Kicked;
      } else {
        outcome := Warned(count);
      }
    }
  }
}
