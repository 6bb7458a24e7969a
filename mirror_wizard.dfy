/**
 * The three-step creation wizard of commands/owner/mirror.js as pure logic:
 * the token format, the transition of one session on one message, the
 * lookup of a user's session and the expiry rule of the periodic sweep.
 */
module MirrorWizard {
  import opened Wrappers
  import opened OrderedMap
  import opened Strings

  // ---------------------------------------------------------------------
  // Token format
  // ---------------------------------------------------------------------

  /** `\d` without the `u` flag: the ASCII digits only. */
  predicate IsAsciiDigit(c: char) {
    '0' <= c <= '9'
  }

  /** `[a-zA-Z0-9_-]` */
  predicate IsTokenChar(c: char) {
    'a' <= c <= 'z' || 'A' <= c <= 'Z' || IsAsciiDigit(c) || c == '_' || c == '-'
  }

  /** The language of `^\d{8,10}:[a-zA-Z0-9_-]{35}$`: 8 to 10 digits, a
      colon, and exactly 35 token characters. */
  ghost predicate TokenShape(t: string) {
    exists k :: 8 <= k <= 10 && |t| == k + 36 && t[k] == ':'
      && (forall i :: 0 <= i < k ==> IsAsciiDigit(t[i]))
      && (forall i :: k < i < |t| ==> IsTokenChar(t[i]))
  }

  /** The regular expression test, by locating the first colon. */
  function CheckToken(t: string): (ok: bool)
    ensures ok <==> TokenShape(t)
  {
    var k := FindChar(t, ':');
    var ok := 8 <= k <= 10 && |t| == k + 36
      && (forall i :: 0 <= i < k ==> IsAsciiDigit(t[i]))
      && (forall i :: k < i < |t| ==> IsTokenChar(t[i]));
    assert TokenShape(t) ==> ok by {
      if TokenShape(t) {
        var k' :| 8 <= k' <= 10 && |t| == k' + 36 && t[k'] == ':'
          && (forall i :: 0 <= i < k' ==> IsAsciiDigit(t[i]))
          && (forall i :: k' < i < |t| ==> IsTokenChar(t[i]));
        assert k == k';
      }
    }
    ok
  }

  // ---------------------------------------------------------------------
  // Sessions and steps
  // ---------------------------------------------------------------------

  datatype Step = AwaitToken | AwaitOwner | AwaitBotName

  /** Position of a step in the wizard. */
  function Rank(s: Step): nat {
    match s
    case AwaitToken => 0
    case AwaitOwner => 1
    case AwaitBotName => 2
  }

  /** An entry of `mirrorSessions`; the token and the owner id are present
      once their step has been passed. */
  datatype WizardSession = WizardSession(userId: int, step: Step, created: int, botToken: Option<string>, ownerId: Option<int>)

  /** The fields a session has by the time it reaches its step. */
  predicate WellFormed(s: WizardSession) {
    (s.step == AwaitOwner ==> s.botToken.Some?)
    && (s.step == AwaitBotName ==> s.botToken.Some? && s.ownerId.Some?)
  }

  /** The session `mirror_create` opens. */
  function NewSession(user: int, now: int): (s: WizardSession)
    ensures WellFormed(s) && s.step == AwaitToken && s.userId == user
  {
    WizardSession(user, AwaitToken, now, None, None)
  }

  datatype StepResult = Invalid | Advanced(next: WizardSession) | Completed(botToken: string, ownerId: int, botName: string)

  /** One trimmed message `t` against the session: a token that fits the
      format, an owner id `parseInt` can read and a name of 3 or more
      characters are accepted; anything else is refused. */
  function Advance(s: WizardSession, t: string): StepResult
    requires WellFormed(s)
  {
    match s.step
    case AwaitToken =>
      if CheckToken(t) then Advanced(s.(step := AwaitOwner, botToken := Some(t))) else Invalid
    case AwaitOwner =>
      (match ParseInt(t)
       case None => Invalid
       case Some(o) => Advanced(s.(step := AwaitBotName, ownerId := Some(o))))
    case AwaitBotName =>
      if |t| < 3 then Invalid else Completed(s.botToken.value, s.ownerId.value, t)
  }

  /** The wizard moves one step forward at a time, keeps who and when, and
      rejects exactly the inputs its validators reject; the name has a lower
      bound only. */
  lemma AdvanceSpec(s: WizardSession, t: string)
    requires WellFormed(s)
    ensures Advance(s, t).Advanced? ==>
      var n := Advance(s, t).next;
      WellFormed(n) && Rank(n.step) == Rank(s.step) + 1 && n.userId == s.userId && n.created == s.created
    ensures Advance(s, t).Completed? <==> s.step == AwaitBotName && |t| >= 3
    ensures s.step == AwaitToken ==> (Advance(s, t).Invalid? <==> !TokenShape(t))
    ensures s.step == AwaitToken && TokenShape(t) ==> Advance(s, t).next.botToken == Some(t)
    ensures s.step == AwaitOwner ==> (Advance(s, t).Invalid? <==> ParseInt(t).None?)
    ensures s.step == AwaitOwner && ParseInt(t).Some? ==> Advance(s, t).next.ownerId == ParseInt(t)
    ensures Advance(s, t).Completed? ==>
      Advance(s, t) == Completed(s.botToken.value, s.ownerId.value, t)
  {
  }

  /** Three accepted messages take a new session to a completed wizard that
      carries exactly those three inputs. */
  lemma ThreeStepsComplete(user: int, now: int, token: string, ownerText: string, name: string)
    requires TokenShape(token) && ParseInt(ownerText).Some? && |name| >= 3
    ensures var s0 := NewSession(user, now);
      Advance(s0, token).Advanced?
      && Advance(Advance(s0, token).next, ownerText).Advanced?
      && Advance(Advance(Advance(s0, token).next, ownerText).next, name)
         == Completed(token, ParseInt(ownerText).value, name)
  {
    var s0 := NewSession(user, now);
    AdvanceSpec(s0, token);
    var s1 := Advance(s0, token).next;
    AdvanceSpec(s1, ownerText);
  }

  /** The position of the first session of `user`, in insertion order: the
      `for … of mirrorSessions` loop that stops at the first match. */
  function FirstSessionOf(ss: OMap<string, WizardSession>, user: int): (r: Option<nat>)
    ensures r.Some? ==> r.value < |ss| && ss[r.value].1.userId == user
    ensures forall j :: 0 <= j < |ss| && (r.None? || j < r.value) ==> ss[j].1.userId != user
  {
    if ss == [] then None
    else if ss[0].1.userId == user then Some(0)
    else
      match FirstSessionOf(ss[1..], user)
      case None => None
      case Some(i) => Some(i + 1)
  }

  // ---------------------------------------------------------------------
  // Session expiry
  // ---------------------------------------------------------------------

  /** Thirty minutes. */
  const SessionTimeout: int := 1800000

  predicate Expired(s: WizardSession, now: int) {
    now - s.created > SessionTimeout
  }

  /** The sessions that survive a sweep at `now`, in their order. */
  function Unexpired(ss: OMap<string, WizardSession>, now: int): (r: OMap<string, WizardSession>)
    ensures |r| <= |ss|
  {
    if ss == [] then []
    else
      var r := Unexpired(ss[..|ss| - 1], now);
      if Expired(ss[|ss| - 1].1, now) then r else r + [ss[|ss| - 1]]
  }

  /** A session survives exactly when it has not expired. */
  lemma {:induction false} UnexpiredMembers(ss: OMap<string, WizardSession>, now: int)
    ensures forall p :: p in Unexpired(ss, now) <==> p in ss && !Expired(p.1, now)
  {
    if ss != [] {
      var pre := ss[..|ss| - 1];
      assert ss == pre + [ss[|ss| - 1]];
      UnexpiredMembers(pre, now);
    }
  }

  /** The sweep keeps session ids unique. */
  lemma {:induction false} UnexpiredUnique(ss: OMap<string, WizardSession>, now: int)
    requires UniqueKeys(ss)
    ensures UniqueKeys(Unexpired(ss, now))
  {
    if ss != [] {
      var pre := ss[..|ss| - 1];
      var last := ss[|ss| - 1];
      UnexpiredUnique(pre, now);
      UnexpiredMembers(pre, now);
      var r := Unexpired(pre, now);
      forall q | q in r
        ensures q.0 != last.0
      {
        var j :| 0 <= j < |pre| && pre[j] == q;
      }
    }
  }

  /** Sweeping twice at the same time is sweeping once. */
  lemma {:induction false} SweepIdempotent(ss: OMap<string, WizardSession>, now: int)
    ensures Unexpired(Unexpired(ss, now), now) == Unexpired(ss, now)
  {
    if ss != [] {
      var pre := ss[..|ss| - 1];
      var last := ss[|ss| - 1];
      SweepIdempotent(pre, now);
      if !Expired(last.1, now) {
        var r := Unexpired(pre, now);
        assert (r + [last])[..|r + [last]| - 1] == r;
      }
    }
  }
}
