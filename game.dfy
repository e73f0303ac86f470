/**
  The values the room manager of the guessing game works on: players,
  sessions (rooms), the round state, the acknowledgements a handler returns
  and the events it broadcasts to a room.
 */
module Game {

  datatype Option<+T> = None | Some(value: T)

  /** Number of guesses each player gets per question. */
  const MaxAttempts: int := 3

  /** Points awarded for a correct guess. */
  const CorrectGuessPoints: int := 10

  /** The round state tag: "waiting", "ready" or "running". */
  datatype State = Waiting | Ready | Running

  datatype Player = Player(id: string, name: string, score: int, attemptsLeft: int)

  /** A session record. `currentQuestion` and `answer` are null (None) between rounds. */
  datatype Session = Session(
    players: seq<Player>,
    gameMasterId: string,
    currentQuestion: Option<string>,
    answer: Option<string>,
    state: State)

  /** The acknowledgement a handler sends back to the caller. `Crashed` stands
      for a handler that threw before it could acknowledge. */
  datatype Ack = Ok | Error(message: string) | Crashed

  datatype Winner = Winner(id: string, name: string)

  /** Broadcasts, each addressed to the members of one room. */
  datatype Event =
    | SessionUpdate(room: string, players: seq<Player>, gameMasterId: string, state: State)
    | QuestionSet(room: string, question: string)
    | GameStarted(room: string, startQuestion: Option<string>, timeLeft: int)
    | TimerTick(room: string, timeLeft: int)
    | PlayerAttempt(room: string, playerId: string, name: string, attemptsLeft: int, guess: string)
    | RoundEnd(room: string, winner: Option<Winner>, answer: Option<string>, reason: string)

  function NewPlayer(id: string, name: string): Player {
    Player(id, name, 0, MaxAttempts)
  }

  /** A fresh session whose only player is its game master. */
  function NewSession(gameMasterId: string, gameMasterName: string): Session {
    Session([NewPlayer(gameMasterId, gameMasterName)], gameMasterId, None, None, Waiting)
  }

  /** What the invariants promise of a single player: attempts stay within
      0..3 and the score is a non-negative multiple of the award. */
  predicate ValidPlayer(p: Player) {
    0 <= p.attemptsLeft <= MaxAttempts && p.score >= 0 && p.score % CorrectGuessPoints == 0
  }

  /** A session that may be in the registry: it has players, and all are valid. */
  predicate WellFormed(s: Session) {
    |s.players| > 0 && forall p :: p in s.players ==> ValidPlayer(p)
  }

  /** The `session_update` payload of a session: players, game master, state. */
  function SessionUpdateOf(sessionId: string, s: Session): Event {
    SessionUpdate(sessionId, s.players, s.gameMasterId, s.state)
  }

  /** The broadcast of updateSession: the session's snapshot, or nothing when
      the session does not exist. */
  function Snapshot(sessions: map<string, Session>, sessionId: string): seq<Event> {
    if sessionId in sessions then [SessionUpdateOf(sessionId, sessions[sessionId])] else []
  }

  /** The snapshot never reveals the question or the answer: two sessions that
      differ only there produce the same broadcast. */
  lemma SnapshotHidesRound(sessions: map<string, Session>, sessionId: string, q: Option<string>, a: Option<string>)
    requires sessionId in sessions
    ensures Snapshot(sessions[sessionId := sessions[sessionId].(currentQuestion := q, answer := a)], sessionId)
         == Snapshot(sessions, sessionId)
  {
  }
}
