/**
  The per-session updates the socket handlers make: setting a question,
  starting a round, the end of a round by the timer, and a guess. Each is a
  function from the session before to the session after; the handlers in
  module Server apply them to the registry.
 */
module Rounds {
  import opened Game
  import opened Sessions

  /** `players.find(p => p.id === id)`: the index of the FIRST player with
      that id, or None when there is none. */
  function FindPlayer(players: seq<Player>, id: string): (r: Option<nat>)
    ensures r.Some? ==> r.value < |players| && players[r.value].id == id
    ensures r.Some? ==> forall j :: 0 <= j < r.value ==> players[j].id != id
    ensures r.None? <==> forall j :: 0 <= j < |players| ==> players[j].id != id
  {
    if players == [] then None
    else if players[0].id == id then Some(0)
    else match FindPlayer(players[1..], id)
      case None => None
      case Some(i) => Some(i + 1)
  }

  /** set_question: question and answer stored as given, state "ready",
      every player's attempts reset. */
  function WithQuestion(s: Session, question: string, answer: string): Session {
    s.(currentQuestion := Some(question), answer := Some(answer), state := Ready, players := ResetAll(s.players))
  }

  /** start_game: state "running", whatever it was before. */
  function Started(s: Session): Session {
    s.(state := Running)
  }

  /** The end of a round by the timer: question and answer cleared, state "waiting". */
  function TimeUp(s: Session): Session {
    s.(currentQuestion := None, answer := None, state := Waiting)
  }

  /** Whether the tick that has brought the countdown to `timeLeft` stops the
      interval and ends the round. */
  predicate TickEndsRound(timeLeft: int, s: Session) {
    timeLeft <= 0 || s.state != Running
  }

  /** The attempt bookkeeping of submit_answer: player i has one attempt fewer. */
  function Attempted(s: Session, i: nat): Session
    requires i < |s.players|
  {
    s.(players := s.players[i := s.players[i].(attemptsLeft := s.players[i].attemptsLeft - 1)])
  }

  /** A correct guess by player i: ten points to that player, the round over. */
  function Won(s: Session, i: nat): Session
    requires i < |s.players|
  {
    s.(players := s.players[i := s.players[i].(score := s.players[i].score + CorrectGuessPoints)],
       state := Waiting, currentQuestion := None, answer := None)
  }

  /** An accepted guess by player i; `hit` tells whether it matched the
      stored answer (Matching.Matches). */
  function Guessed(s: Session, i: nat, hit: bool): Session
    requires i < |s.players|
  {
    var t := Attempted(s, i);
    if hit then Won(t, i) else t
  }

  /** What a guess does to the players: the guesser loses exactly one attempt
      and gains exactly ten points if and only if the guess matches; every
      other player, and every id and name, stays as it was. A match ends the
      round; a mismatch changes nothing but the attempt count. */
  lemma GuessedEffect(s: Session, i: nat, hit: bool)
    requires i < |s.players|
    ensures var r := Guessed(s, i, hit);
      && |r.players| == |s.players|
      && r.gameMasterId == s.gameMasterId
      && (forall j :: 0 <= j < |s.players| ==>
            && r.players[j].id == s.players[j].id
            && r.players[j].name == s.players[j].name
            && r.players[j].attemptsLeft == s.players[j].attemptsLeft - (if j == i then 1 else 0)
            && r.players[j].score == s.players[j].score + (if j == i && hit then CorrectGuessPoints else 0))
      && (hit ==> r.state == Waiting && r.currentQuestion == None && r.answer == None)
      && (!hit ==> r == s.(players := r.players))
  {
  }

  /** Spending an attempt that the player has keeps the session well formed:
      attempts never go below 0. */
  lemma AttemptedKeepsWellFormed(s: Session, i: nat)
    requires WellFormed(s) && i < |s.players| && s.players[i].attemptsLeft > 0
    ensures WellFormed(Attempted(s, i))
  {
    var t := Attempted(s, i);
    forall p | p in t.players ensures ValidPlayer(p) {
      var j :| 0 <= j < |t.players| && t.players[j] == p;
      assert s.players[j] in s.players;
    }
  }

  /** A win keeps the session well formed: scores stay non-negative multiples of ten. */
  lemma WonKeepsWellFormed(s: Session, i: nat)
    requires WellFormed(s) && i < |s.players|
    ensures WellFormed(Won(s, i))
  {
    var w := Won(s, i);
    forall p | p in w.players ensures ValidPlayer(p) {
      var j :| 0 <= j < |w.players| && w.players[j] == p;
      assert s.players[j] in s.players;
    }
  }

  /** An accepted guess keeps the session well formed. */
  lemma GuessedKeepsWellFormed(s: Session, i: nat, hit: bool)
    requires WellFormed(s) && i < |s.players|
    requires s.players[i].attemptsLeft > 0
    ensures WellFormed(Guessed(s, i, hit))
  {
    AttemptedKeepsWellFormed(s, i);
    WonKeepsWellFormed(Attempted(s, i), i);
  }

  /** set_question keeps the session well formed. */
  lemma WithQuestionKeepsWellFormed(s: Session, question: string, answer: string)
    requires WellFormed(s)
    ensures WellFormed(WithQuestion(s, question, answer))
  {
    var r := WithQuestion(s, question, answer);
    forall p | p in r.players ensures ValidPlayer(p) {
      var j :| 0 <= j < |r.players| && r.players[j] == p;
      assert s.players[j] in s.players;
    }
  }

  /** Player lists that line up one to one, where no player lost points. */
  predicate ScoresKept(before: seq<Player>, after: seq<Player>) {
    |after| == |before| &&
    forall j :: 0 <= j < |before| ==> after[j].id == before[j].id && after[j].score >= before[j].score
  }

  /** No update of a round lowers a score: the only write to a score adds ten. */
  lemma ScoresNeverDecrease(s: Session, question: string, answer: string, i: nat, hit: bool)
    ensures ScoresKept(s.players, WithQuestion(s, question, answer).players)
    ensures ScoresKept(s.players, Started(s).players)
    ensures ScoresKept(s.players, TimeUp(s).players)
    ensures i < |s.players| ==> ScoresKept(s.players, Guessed(s, i, hit).players)
  {
    if i < |s.players| {
      GuessedEffect(s, i, hit);
    }
  }

  /** After a correct guess the interval is still running, and its next tick
      ends the round a second time ("Time up", no winner, answer already
      cleared) whatever the countdown shows; the session itself is then left
      as the guess left it. */
  lemma CorrectGuessLeavesTimerToEnd(s: Session, i: nat, timeLeft: int)
    requires i < |s.players|
    ensures TickEndsRound(timeLeft, Guessed(s, i, true))
    ensures Guessed(s, i, true).answer == None
    ensures TimeUp(Guessed(s, i, true)) == Guessed(s, i, true)
  {
  }

  /** A question set while an old interval is still pending does not survive
      that interval's next tick: the tick sees a state other than "running"
      and clears question and answer. */
  lemma PendingTickClearsNewQuestion(s: Session, question: string, answer: string, timeLeft: int)
    ensures TickEndsRound(timeLeft, WithQuestion(s, question, answer))
    ensures TimeUp(WithQuestion(s, question, answer)).currentQuestion == None
    ensures TimeUp(WithQuestion(s, question, answer)).answer == None
  {
  }
}
