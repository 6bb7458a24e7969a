/**
 * middlewares/mirrorSecurity.js: the middleware every tenant bot runs first.
 * It refuses updates when the tenant's config file is missing, blocks the
 * dangerous command names (with an audit record), applies a fixed-window
 * rate limit per tenant and user, and on success counts the command in the
 * tenant's statistics before passing the update on.
 */
module MirrorSecurity {
  import opened Wrappers
  import opened OrderedMap
  import opened Strings
  import opened Tenants

  // ---------------------------------------------------------------------
  // Command names and the blocklist
  // ---------------------------------------------------------------------

  /** The first space-separated token of the message text without its first
      character; `None` when the update carries no text. */
  function CommandName(text: Option<string>): Option<string> {
    match text
    case None => None
    case Some(t) =>
      var token := Split(t, ' ')[0];
      Some(if token == [] then [] else token[1..])
  }

  /** `command && BLOCKED_COMMANDS.includes(command)` */
  predicate IsBlocked(command: Option<string>) {
    command.Some? && command.value != [] && command.value in DangerousCommands
  }

  /** `/name`, alone or followed by a space and arguments, is read as `name`. */
  lemma CommandNameOf(name: string, rest: string)
    requires ' ' !in name
    requires rest == [] || rest[0] == ' '
    ensures CommandName(Some("/" + name + rest)) == Some(name)
  {
    var t := "/" + name + rest;
    var n := |name| + 1;
    assert forall j :: 0 <= j < n ==> t[j] != ' ' by {
      forall j | 0 <= j < n
        ensures t[j] != ' '
      {
        if j > 0 {
          assert t[j] == name[j - 1];
        }
      }
    }
    assert n < |t| ==> t[n] == ' ';
    var i := FindChar(t, ' ');
    assert i == n;
    assert Split(t, ' ')[0] == t[..n];
    assert t[..n][1..] == name;
  }

  /** A command is blocked exactly when its name is one of the nine. */
  lemma BlockedIff(name: string, rest: string)
    requires ' ' !in name
    requires rest == [] || rest[0] == ' '
    ensures IsBlocked(CommandName(Some("/" + name + rest))) <==> name in DangerousCommands
  {
    CommandNameOf(name, rest);
  }

  /** Only the exact names are blocked: `/mirror` and `/eval x` are. */
  lemma BlockedExamples()
    ensures IsBlocked(CommandName(Some("/mirror")))
    ensures IsBlocked(CommandName(Some("/eval x")))
  {
    assert "/mirror" == "/" + "mirror" + "";
    CommandNameOf("mirror", "");
    assert "/eval x" == "/" + "eval" + " x";
    CommandNameOf("eval", " x");
  }

  /** A longer name is not blocked, and neither is an update without text. */
  lemma NotBlockedLonger()
    ensures !IsBlocked(CommandName(Some("/mirrorinfo")))
    ensures !IsBlocked(CommandName(None))
  {
    assert "/mirrorinfo" == "/" + "mirrorinfo" + "";
    CommandNameOf("mirrorinfo", "");
    LongNamesAreSafe("mirrorinfo");
  }

  /** A name addressed to a bot is not blocked. */
  lemma NotBlockedAddressed()
    ensures !IsBlocked(CommandName(Some("/eval@somebot")))
  {
    assert "/eval@somebot" == "/" + "eval@somebot" + "";
    CommandNameOf("eval@somebot", "");
    LongNamesAreSafe("eval@somebot");
  }

  /** No dangerous name is longer than eight characters. */
  lemma LongNamesAreSafe(name: string)
    requires |name| > 8
    ensures name !in DangerousCommands
  {
    assert forall c :: c in DangerousCommands ==> |c| <= 8;
  }

  /** The first character is dropped whatever it is, so the plain text
      `xeval` is blocked too. */
  lemma PlainTextBlocked()
    ensures IsBlocked(CommandName(Some("xeval")))
  {
    assert "xeval" == "x" + "eval" + "";
    CommandNameDropsFirstChar("x", "eval");
  }

  /** The first character is dropped even when it is not `/`. */
  lemma CommandNameDropsFirstChar(first: string, name: string)
    requires |first| == 1 && first[0] != ' ' && ' ' !in name
    ensures CommandName(Some(first + name + "")) == Some(name)
  {
    var t := first + name + "";
    assert forall j :: 0 <= j < |t| ==> t[j] != ' ' by {
      forall j | 0 <= j < |t|
        ensures t[j] != ' '
      {
        if j > 0 {
          assert t[j] == name[j - 1];
        }
      }
    }
    assert FindChar(t, ' ') == |t|;
    assert t[1..] == name;
  }

  // ---------------------------------------------------------------------
  // Fixed-window rate limiter
  // ---------------------------------------------------------------------

  /** Hard-coded at middlewares/mirrorSecurity.js:52; the tenant's own
      `rateLimitPerMinute` is not consulted. */
  const Limit: nat := 30
  const Window: nat := 60000

  datatype RateEntry = RateEntry(count: nat, resetTime: int)

  datatype RateDecision = Allow(entry: RateEntry) | Deny(wait: int)

  /** `Math.ceil(ms / 1000)` for a non-negative number of milliseconds. */
  function CeilSeconds(ms: int): (s: int)
    requires ms >= 0
    ensures s >= 0 && s * 1000 >= ms && (s - 1) * 1000 < ms
  {
    (ms + 999) / 1000
  }

  /** One event at time `now` against the user's entry: a first event, or
      one after the window ended, opens a new window with count 1; inside the
      window an event passes and counts while fewer than `Limit` have; the
      rest are refused with the seconds left. */
  function Rate(e: Option<RateEntry>, now: int): RateDecision {
    match e
    case None => Allow(RateEntry(1, now + Window))
    case Some(u) =>
      if now > u.resetTime then Allow(RateEntry(1, now + Window))
      else if u.count >= Limit then Deny(CeilSeconds(u.resetTime - now))
      else Allow(RateEntry(u.count + 1, u.resetTime))
  }

  /** Counts stay between 1 and `Limit`; a refusal happens only inside a
      full window and reports a wait of at most 60 seconds when the window
      was opened no later than `now`. */
  lemma RateBounds(e: Option<RateEntry>, now: int)
    requires e.Some? ==> e.value.count <= Limit
    ensures Rate(e, now).Allow? ==> 1 <= Rate(e, now).entry.count <= Limit
    ensures Rate(e, now).Deny? <==> e.Some? && now <= e.value.resetTime && e.value.count == Limit
    ensures Rate(e, now).Deny? && e.value.resetTime <= now + Window ==> 0 <= Rate(e, now).wait <= 60
  {
  }

  /** The number of events of `times` that pass, starting from entry `e`. */
  function Passes(e: Option<RateEntry>, times: seq<int>): nat
    decreases |times|
  {
    if times == [] then 0
    else match Rate(e, times[0])
      case Allow(next) => 1 + Passes(Some(next), times[1..])
      case Deny(_) => Passes(e, times[1..])
  }

  /** Inside one window at most `Limit - count` further events pass. */
  lemma {:induction false} WindowLimit(u: RateEntry, times: seq<int>)
    requires u.count <= Limit
    requires forall i :: 0 <= i < |times| ==> times[i] <= u.resetTime
    ensures Passes(Some(u), times) <= Limit - u.count
    decreases |times|
  {
    if times != [] {
      match Rate(Some(u), times[0])
      case Allow(next) =>
        assert next == RateEntry(u.count + 1, u.resetTime);
        WindowLimit(next, times[1..]);
      case Deny(_) =>
        WindowLimit(u, times[1..]);
    }
  }

  /** A user without an entry gets at most `Limit` events through in the
      minute that starts with their first event. */
  lemma FirstWindowLimit(t0: int, times: seq<int>)
    requires forall i :: 0 <= i < |times| ==> times[i] <= t0 + Window
    ensures Passes(None, [t0] + times) <= Limit
  {
    var first := RateEntry(1, t0 + Window);
    assert ([t0] + times)[1..] == times;
    assert Rate(None, t0) == Allow(first);
    assert Passes(None, [t0] + times) == 1 + Passes(Some(first), times);
    WindowLimit(first, times);
  }

  /** The limiter key `${mirrorId}_${userId}`. */
  function RateKey(mirrorId: string, user: int): string {
    mirrorId + "_" + IntToString(user)
  }

  /** Different users of one tenant never share a counter. */
  lemma RateKeysDistinct(mirrorId: string, u1: int, u2: int)
    requires u1 != u2
    ensures RateKey(mirrorId, u1) != RateKey(mirrorId, u2)
  {
    if RateKey(mirrorId, u1) == RateKey(mirrorId, u2) {
      var n := |mirrorId| + 1;
      assert RateKey(mirrorId, u1)[n..] == IntToString(u1);
      assert RateKey(mirrorId, u2)[n..] == IntToString(u2);
      ParseIntRoundTrip(u1);
      ParseIntRoundTrip(u2);
      assert false;
    }
  }

  // ---------------------------------------------------------------------
  // Usage statistics
  // ---------------------------------------------------------------------

  predicate NoDuplicates(s: seq<int>) {
    forall i, j :: 0 <= i < j < |s| ==> s[i] != s[j]
  }

  /** One more command, the latest activity, and `user` among the users. */
  function Touch(s: Stats, user: int, now: int): (r: Stats)
    ensures r.totalCommands == s.totalCommands + 1 && r.lastActivity == Some(now)
    ensures forall u :: u in r.users <==> u in s.users || u == user
    ensures NoDuplicates(s.users) ==> NoDuplicates(r.users)
    ensures |s.users| <= |r.users| <= |s.users| + 1 && r.users[..|s.users|] == s.users
    ensures r.uptime == s.uptime
  {
    s.(totalCommands := s.totalCommands + 1, lastActivity := Some(now),
       users := if user in s.users then s.users else s.users + [user])
  }

  /** `data/mirrors.json` as the middleware finds it. */
  datatype RegistryFile = Missing | Unreadable | Present(entries: Registry)

  /** The best-effort statistics update: only a readable registry that has
      the tenant, and only when the write succeeds, changes. */
  function RecordActivity(f: RegistryFile, mirrorId: string, user: int, now: int, writeOk: bool): RegistryFile {
    if f.Present? && writeOk then
      match Get(f.entries, mirrorId)
      case Some(t) => Present(Set(f.entries, mirrorId, t.(stats := Touch(t.stats, user, now))))
      case None => f
    else f
  }

  /** The statistics update as the middleware performs it: read the
      registry, bump the tenant's counters, write it back. */
  method WriteActivity(registry: RegistryFile, mirrorId: string, user: int, now: int, writeOk: bool)
    returns (registryAfter: RegistryFile)
    ensures registryAfter == RecordActivity(registry, mirrorId, user, now, writeOk)
  {
    registryAfter := registry;
    if registry.Present? {
      var entry := Get(registry.entries, mirrorId);
      if entry.Some? && writeOk {
        var t := entry.value;
        var users := t.stats.users;
        if user !in users {
          users := users + [user];
        }
        var stats := t.stats.(totalCommands := t.stats.totalCommands + 1, lastActivity := Some(now), users := users);
        registryAfter := Present(Set(registry.entries, mirrorId, t.(stats := stats)));
      }
    }
  }

  /** Only the tenant's statistics change: every other tenant, every other
      field and the order of the registry stay as they were. */
  lemma RecordActivitySpec(f: RegistryFile, mirrorId: string, user: int, now: int, writeOk: bool)
    requires f.Present?
    ensures var g := RecordActivity(f, mirrorId, user, now, writeOk);
      g.Present? && Keys(g.entries) == Keys(f.entries)
      && (forall id :: id != mirrorId ==> Get(g.entries, id) == Get(f.entries, id))
      && (writeOk && HasKey(f.entries, mirrorId) ==>
            var t := Get(f.entries, mirrorId).value;
            Get(g.entries, mirrorId) == Some(t.(stats := Touch(t.stats, user, now))))
      && (!writeOk || !HasKey(f.entries, mirrorId) ==> g == f)
  {
    match Get(f.entries, mirrorId)
    case Some(t) =>
      SetSpec(f.entries, mirrorId, t.(stats := Touch(t.stats, user, now)));
    case None =>
  }

  // ---------------------------------------------------------------------
  // The middleware
  // ---------------------------------------------------------------------

  datatype AuditRecord = AuditRecord(mirrorId: string, userId: int, blockedCommand: string, chatId: int)

  /** `Passed` is the only verdict that calls the next handler. */
  datatype Verdict = NotConfigured | Blocked(command: string) | RateLimited(wait: int) | Passed

  /** The state a tenant process keeps: the rate-limit map and the security
      log (`logs/mirror_security.log`). */
  class Security {
    var rateLimits: map<string, RateEntry>
    var auditLog: seq<AuditRecord>

    constructor ()
      ensures rateLimits == map[] && auditLog == []
    {
      rateLimits := map[];
      auditLog := [];
    }

    /** The entry for `key`, if any. */
    function EntryOf(key: string): Option<RateEntry>
      reads this
    {
      if key in rateLimits then Some(rateLimits[key]) else None
    }

    /**
     * One update from `user` in `chat`. `configured` says whether the
     * tenant's config file exists, `registry` is the registry file as read,
     * `writeOk` whether writing it back succeeds; `registryAfter` is the
     * registry file afterwards.
     */
    method Handle(mirrorId: string, configured: bool, user: int, chat: int, text: Option<string>, now: int,
                  registry: RegistryFile, writeOk: bool)
      returns (verdict: Verdict, registryAfter: RegistryFile)
      modifies this
      ensures !configured ==>
        verdict == NotConfigured && rateLimits == old(rateLimits) && auditLog == old(auditLog) && registryAfter == registry
      ensures configured && IsBlocked(CommandName(text)) ==>
        verdict == Blocked(CommandName(text).value)
        && auditLog == old(auditLog) + [AuditRecord(mirrorId, user, CommandName(text).value, chat)]
        && rateLimits == old(rateLimits) && registryAfter == registry
      ensures configured && !IsBlocked(CommandName(text)) ==>
        auditLog == old(auditLog)
        && match Rate(old(EntryOf(RateKey(mirrorId, user))), now)
           case Deny(w) => verdict == RateLimited(w) && rateLimits == old(rateLimits) && registryAfter == registry
           case Allow(e) =>
             verdict == Passed && rateLimits == old(rateLimits)[RateKey(mirrorId, user) := e]
             && registryAfter == RecordActivity(registry, mirrorId, user, now, writeOk)
    {
      var command := CommandName(text);
      if !configured {
        return NotConfigured, registry;
      }
      if command.Some? && command.value != [] && command.value in DangerousCommands {
        auditLog := auditLog + [AuditRecord(mirrorId, user, command.value, chat)];
        return Blocked(command.value), registry;
      }
      var key := RateKey(mirrorId, user);
      if key in rateLimits {
        var userRate := rateLimits[key];
        if now > userRate.resetTime {
          rateLimits := rateLimits[key := RateEntry(1, now + Window)];
        } else if userRate.count >= Limit {
          return RateLimited(CeilSeconds(userRate.resetTime - now)), registry;
        } else {
          rateLimits := rateLimits[key := userRate.(count := userRate.count + 1)];
        }
      } else {
        rateLimits := rateLimits[key := RateEntry(1, now + Window)];
      }
      registryAfter := WriteActivity(registry, mirrorId, user, now, writeOk);
      verdict := Passed;
    }
  }
}
