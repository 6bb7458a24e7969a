/**
 * commands/tebak.js: guess a number from 1 to 10 with three attempts. The
 * game lives in the command's session map; the target drawn with
 * `Math.random` is a parameter.
 */
module Tebak {
  import opened Wrappers
  import opened OrderedMap
  import opened Strings
  import opened CommandTemplate
  import opened BotCommands

  const Attempts: int := 3

  predicate InRange(n: int) {
    1 <= n <= 10
  }

  /** A session this command can hold. */
  predicate GameSession(p: Payload) {
    p.Game? && InRange(p.correctNumber) && 1 <= p.attemptsLeft <= Attempts
  }

  predicate AllGames(ss: Sessions) {
    forall u :: u in ss ==> GameSession(ss[u])
  }

  /** `parseInt` of the text, refused when NaN or outside 1..10. */
  function ReadGuess(s: string): Option<int>
  {
    match ParseInt(s)
    case Some(n) => if InRange(n) then Some(n) else None
    case None => None
  }

  datatype GuessReply = NotStarted | Correct(number: int) | Wrong(attemptsLeft: int) | OutOfAttempts(number: int)

  datatype TebakReply = AlreadyPlaying | Started | InvalidGuess | Guessed(reply: GuessReply)

  /** One guess against a game: one attempt is used; a hit or the last
      attempt ends the game, a miss with attempts left keeps it. */
  function AfterGuess(correct: int, attempts: int, guess: int): (Option<Payload>, GuessReply)
  {
    var left := attempts - 1;
    if guess == correct then (None, Correct(correct))
    else if left > 0 then (Some(Game(correct, left)), Wrong(left))
    else (None, OutOfAttempts(correct))
  }

  /** `startGame` over the session map. */
  function Start(ss: Sessions, user: UserId, target: int): (Sessions, TebakReply)
  {
    if user in ss then (ss, AlreadyPlaying) else (ss[user := Game(target, Attempts)], Started)
  }

  /** `handleGuess` over the session map. */
  function Guess(ss: Sessions, user: UserId, guess: int): (Sessions, GuessReply)
  {
    if user !in ss || !ss[user].Game? then (ss, NotStarted)
    else
      var (next, reply) := AfterGuess(ss[user].correctNumber, ss[user].attemptsLeft, guess);
      match next
      case Some(p) => (ss[user := p], reply)
      case None => (ss - {user}, reply)
  }

  /** `execute`: `/tebak` alone starts a game, `/tebak n` guesses `n`. */
  function ExecuteOn(ss: Sessions, user: UserId, text: string, target: int): (Sessions, TebakReply)
  {
    var args := Split(text, ' ');
    if |args| == 1 then Start(ss, user, target)
    else match ReadGuess(args[1])
      case None => (ss, InvalidGuess)
      case Some(g) => var (ss', r) := Guess(ss, user, g); (ss', Guessed(r))
  }

  /** The `number_input` text handler: whether it claims the message, and
      what it does with it. */
  function NumberInput(ss: Sessions, user: UserId, text: string): (Sessions, bool, Option<TebakReply>)
  {
    if user !in ss then (ss, false, None)
    else match ReadGuess(Trim(text))
      case None => (ss, true, Some(InvalidGuess))
      case Some(g) => var (ss', r) := Guess(ss, user, g); (ss', true, Some(Guessed(r)))
  }

  // ---------------------------------------------------------------------
  // Properties
  // ---------------------------------------------------------------------

  /** Starting with no game stores a fresh game with three attempts for
      that user only; starting while a game runs changes nothing. */
  lemma StartSpec(ss: Sessions, user: UserId, target: int)
    ensures var (ss', reply) := Start(ss, user, target);
      && (user in ss ==> ss' == ss && reply == AlreadyPlaying)
      && (user !in ss ==>
            reply == Started && ss'.Keys == ss.Keys + {user}
            && ss'[user] == Game(target, 3) && forall u :: u in ss && u != user ==> ss'[u] == ss[u])
  {
  }

  /** Each valid guess uses exactly one attempt: a miss with attempts left
      keeps the game with one attempt fewer; otherwise the game is gone.
      Other users' games are untouched, and without a game nothing
      changes. */
  lemma GuessSpec(ss: Sessions, user: UserId, guess: int)
    ensures var (ss', reply) := Guess(ss, user, guess);
      && (forall u :: u != user ==> (u in ss' <==> u in ss) && (u in ss ==> ss'[u] == ss[u]))
      && (user !in ss ==> ss' == ss && reply == NotStarted)
      && (user in ss && ss[user].Game? ==>
            var g := ss[user];
            && (guess == g.correctNumber ==> user !in ss' && reply == Correct(g.correctNumber))
            && (guess != g.correctNumber && g.attemptsLeft > 1 ==>
                  user in ss' && ss'[user] == Game(g.correctNumber, g.attemptsLeft - 1) && reply == Wrong(g.attemptsLeft - 1))
            && (guess != g.correctNumber && g.attemptsLeft <= 1 ==> user !in ss' && reply == OutOfAttempts(g.correctNumber)))
  {
  }

  /** A guess that is NaN or outside 1..10 leaves every session as it was. */
  lemma InvalidGuessUntouched(ss: Sessions, user: UserId, text: string, target: int)
    ensures |Split(text, ' ')| > 1 && ReadGuess(Split(text, ' ')[1]).None? ==>
      ExecuteOn(ss, user, text, target) == (ss, InvalidGuess)
    ensures user in ss && ReadGuess(Trim(text)).None? ==>
      NumberInput(ss, user, text) == (ss, true, Some(InvalidGuess))
  {
  }

  /** The text handler declines exactly when the user has no game. */
  lemma NumberInputClaims(ss: Sessions, user: UserId, text: string)
    ensures !NumberInput(ss, user, text).1 <==> user !in ss
    ensures user !in ss ==> NumberInput(ss, user, text).0 == ss
  {
  }

  /** Every operation keeps every stored session a game with a target in
      1..10 and one to three attempts left. */
  lemma GamesStayValid(ss: Sessions, user: UserId, text: string, target: int, guess: int)
    requires AllGames(ss) && InRange(target)
    ensures AllGames(Start(ss, user, target).0)
    ensures AllGames(Guess(ss, user, guess).0)
    ensures AllGames(ExecuteOn(ss, user, text, target).0)
    ensures AllGames(NumberInput(ss, user, text).0)
  {
    StartKeepsGames(ss, user, target);
    GuessKeepsGames(ss, user, guess);
    var args := Split(text, ' ');
    if |args| != 1 && ReadGuess(args[1]).Some? {
      GuessKeepsGames(ss, user, ReadGuess(args[1]).value);
    }
    if user in ss && ReadGuess(Trim(text)).Some? {
      GuessKeepsGames(ss, user, ReadGuess(Trim(text)).value);
    }
  }

  lemma StartKeepsGames(ss: Sessions, user: UserId, target: int)
    requires AllGames(ss) && InRange(target)
    ensures AllGames(Start(ss, user, target).0)
  {
  }

  lemma GuessKeepsGames(ss: Sessions, user: UserId, guess: int)
    requires AllGames(ss)
    ensures AllGames(Guess(ss, user, guess).0)
  {
    if user in ss {
      var (next, _) := AfterGuess(ss[user].correctNumber, ss[user].attemptsLeft, guess);
      if next.Some? {
        assert GameSession(next.value);
      }
    }
  }

  /** How many of `guesses` a game with `attempts` left takes before it
      ends (the rest find no game). */
  function Accepted(correct: int, attempts: int, guesses: seq<int>): nat
    decreases |guesses|
  {
    if guesses == [] then 0
    else match AfterGuess(correct, attempts, guesses[0]).0
      case None => 1
      case Some(g) => 1 + Accepted(correct, g.attemptsLeft, guesses[1..])
  }

  /** A game takes at most as many guesses as it has attempts: a new game
      at most three. */
  lemma {:induction false} AcceptedAtMost(correct: int, attempts: int, guesses: seq<int>)
    requires attempts >= 1
    ensures Accepted(correct, attempts, guesses) <= attempts
    ensures Accepted(correct, attempts, guesses) <= |guesses|
    decreases |guesses|
  {
    if guesses != [] && AfterGuess(correct, attempts, guesses[0]).0.Some? {
      AcceptedAtMost(correct, attempts - 1, guesses[1..]);
    }
  }

  /** Missing every time uses up all the attempts (or all the guesses). */
  lemma {:induction false} AllMissesUseAll(correct: int, attempts: int, guesses: seq<int>)
    requires attempts >= 1
    requires correct !in guesses
    ensures Accepted(correct, attempts, guesses) == if |guesses| < attempts then |guesses| else attempts
    decreases |guesses|
  {
    if guesses != [] && attempts > 1 {
      assert correct !in guesses[1..];
      AllMissesUseAll(correct, attempts - 1, guesses[1..]);
    }
  }

  /** A hit within the attempts ends the game right there. */
  lemma {:induction false} HitEnds(correct: int, attempts: int, guesses: seq<int>, i: nat)
    requires i < |guesses| && i < attempts
    requires guesses[i] == correct && correct !in guesses[..i]
    ensures Accepted(correct, attempts, guesses) == i + 1
    decreases i
  {
    if i > 0 {
      assert guesses[0] in guesses[..i];
      assert guesses[1..][..i - 1] == guesses[..i][1..];
      HitEnds(correct, attempts - 1, guesses[1..], i - 1);
    }
  }

  // ---------------------------------------------------------------------
  // The command object
  // ---------------------------------------------------------------------

  class TebakCommand {
    const base: BotCommand

    ghost predicate Valid()
      reads this, base
    {
      base.Valid() && AllGames(base.sessions)
    }

    /** The command registers one text handler, `number_input`. */
    constructor ()
      ensures fresh(base) && Valid()
      ensures base.name == "tebak" && base.isTemplate
      ensures base.sessions == map[] && base.actions == [] && base.middleware == []
      ensures base.handlers == [("number_input", Callback("tebak", "number_input"))]
    {
      base := new Command("tebak", "Game tebak angka 1-10 dengan 3 kesempatan");
      new;
      base.AddTextHandler("number_input", Callback("tebak", "number_input"));
    }

    /** `startGame`, with `target` the number drawn at random. */
    method StartGame(user: UserId, target: int) returns (reply: TebakReply)
      requires Valid() && InRange(target)
      modifies base
      ensures Valid()
      ensures (base.sessions, reply) == Start(old(base.sessions), user, target)
      ensures base.actions == old(base.actions) && base.handlers == old(base.handlers)
      ensures base.middleware == old(base.middleware)
    {
      if base.HasActiveSession(user) {
        return AlreadyPlaying;
      }
      base.SetSession(user, Game(target, Attempts));
      reply := Started;
    }

    /** `handleGuess`: decrement the attempts of the stored game, then
        clear it or store it back. */
    method HandleGuess(user: UserId, guess: int) returns (reply: GuessReply)
      requires Valid()
      modifies base
      ensures Valid()
      ensures (base.sessions, reply) == Guess(old(base.sessions), user, guess)
      ensures base.actions == old(base.actions) && base.handlers == old(base.handlers)
      ensures base.middleware == old(base.middleware)
    {
      if !base.HasActiveSession(user) {
        return NotStarted;
      }
      var session := base.GetSession(user).value;
      var attemptsLeft := session.attemptsLeft - 1;
      if guess == session.correctNumber {
        base.ClearSession(user);
        reply := Correct(session.correctNumber);
      } else if attemptsLeft > 0 {
        base.SetSession(user, Game(session.correctNumber, attemptsLeft));
        reply := Wrong(attemptsLeft);
      } else {
        base.ClearSession(user);
        reply := OutOfAttempts(session.correctNumber);
      }
    }

    /** `execute` for the message `text`. */
    method Execute(user: UserId, text: string, target: int) returns (reply: TebakReply)
      requires Valid() && InRange(target)
      modifies base
      ensures Valid()
      ensures (base.sessions, reply) == ExecuteOn(old(base.sessions), user, text, target)
      ensures base.actions == old(base.actions) && base.handlers == old(base.handlers)
      ensures base.middleware == old(base.middleware)
    {
      var args := Split(text, ' ');
      if |args| == 1 {
        reply := StartGame(user, target);
        return;
      }
      var guess := ReadGuess(args[1]);
      if guess.None? {
        return InvalidGuess;
      }
      var r := HandleGuess(user, guess.value);
      reply := Guessed(r);
    }

    /** The `number_input` handler: `handled` is its result. */
    method OnNumberInput(user: UserId, text: string) returns (handled: bool, reply: Option<TebakReply>)
      requires Valid()
      modifies base
      ensures Valid()
      ensures (base.sessions, handled, reply) == NumberInput(old(base.sessions), user, text)
      ensures base.actions == old(base.actions) && base.handlers == old(base.handlers)
      ensures base.middleware == old(base.middleware)
    {
      if !base.HasActiveSession(user) {
        return false, None;
      }
      var guess := ReadGuess(Trim(text));
      if guess.None? {
        return true, Some(InvalidGuess);
      }
      var r := HandleGuess(user, guess.value);
      handled, reply := true, Some(Guessed(r));
    }
  }
}
