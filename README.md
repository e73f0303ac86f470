# Guessing game room manager, in Dafny

This project models the server side of a multiplayer guessing game. The server
keeps an in-memory registry that maps a session id to a session record. A
session holds:

- its players, in join order, each with an id, a name, a score and the
  attempts they have left;
- the id of its game master;
- the current question and answer, which may be null;
- a round state: `waiting`, `ready` or `running`.

The socket handlers drive each session's round: `join_session`,
`set_question`, `start_game` (with its one-second countdown), `submit_answer`,
`leave_session` and `disconnect`. They answer the caller with an
acknowledgement and broadcast events to the room.

The model has these modules:

- `Game` (game.dfy): the values. These are players, sessions, the round
  state, acknowledgements (`Ok`, `Error(message)`, and `Crashed` for a
  handler that throws) and the broadcast events. It also defines the
  `session_update` snapshot.
- `Sessions` (sessions.dfy): the registry of `server/sessions.js`. Class
  `SessionStore` has a `map<string, Session>` field and one method per
  exported function. The pure functions `Without`, `ResetAll` and `Removal`
  specify those methods, and lemmas prove their properties.
- `Matching` (matching.dfy): the answer comparison of `submit_answer`. It
  covers the string `trim` (the full white-space and line-terminator set),
  `toLowerCase` on ASCII letters, and the lemmas that characterise both.
- `Rounds` (rounds.dfy): what each handler does to one session, as pure
  transition functions. Lemmas cover well-formedness, scores and the timer.
- `Server` (server.dfy): class `GameServer` of `server/server.js`, with one
  method per socket handler. Its state is the registry, an `outbox` of
  broadcasts appended in order, and `countdowns`, one per running interval.
  The `setInterval` callback is the explicit step `Tick(sessionId)`. Each
  method's postcondition gives the acknowledgement, the new registry, the
  new countdowns and the events appended, using the functions of `Rounds`
  and `Sessions`.
- `Scenarios` (scenarios.dfy): three short runs derived from the handlers'
  contracts alone. In the first, a round is won and the pending interval
  then ends it a second time. In the second, a player who is not the game
  master tries to set the question and is refused. In the third, a room is
  emptied and created again.

The class invariant `GameServer.Valid` says two things:

- Every stored session has at least one player, and every player has
  0 to 3 attempts and a score that is a non-negative multiple of 10.
- Every countdown belongs to an existing session.
- Every running session has a countdown. `start_game` always starts one, and
  only the tick that sets `waiting` stops it. The converse does not hold:
  after a correct guess, a countdown outlives the running state until its
  next tick.

Every handler preserves it.

Behaviours of the code a reader may not expect, kept as they are:

- `join_session` refuses only an empty session id. It does not check the
  name.
- `start_game` sets `running` from any state.
- The game master is never reassigned. A session whose game master has left
  keeps that id. The privileged handlers compare only the caller's id with
  it and never check membership. A game master who left through
  `leave_session` on a live connection can still set questions and start
  rounds. Once that connection has closed, nobody can do either in that
  session any more.
- A correct guess does not stop the interval. The next tick sees a state
  other than `running`, so it broadcasts a second `round_end` ("Time up", no
  winner). In the same way, a pending tick clears a question that was set
  after the round ended.
- The error messages are the code's own strings.

## Model

| member | source | states |
|---|---|---|
| Game.SnapshotHidesRound | server/server.js:149-153 | the snapshot never depends on the question or the answer, so the answer is never broadcast through it |
| Sessions.Without | server/sessions.js:29 | the filter keeps exactly the players whose id differs, and never lengthens the list |
| Sessions.WithoutAppend | server/sessions.js:29 | filtering distributes over concatenation, so the remaining players keep their relative order |
| Sessions.WithoutAbsent | server/sessions.js:29 | removing an id that no player has leaves the list unchanged |
| Sessions.WithoutIdempotent | server/sessions.js:29 | filtering the same id twice equals filtering once |
| Sessions.ResetAll | server/sessions.js:37 | every player ends with 3 attempts, with the same id, name and score, in the same order |
| Sessions.Removal | server/sessions.js:26-31 | an unknown session leaves the registry unchanged; no session is added; every other session is untouched; the session is deleted exactly when the filter leaves no player; otherwise it keeps question, answer, state and game master, and its players become `Without` of the old ones, in order |
| Sessions.RemovalAbsent | server/sessions.js:27-30 | removing a player whom a non-empty session does not hold leaves the registry unchanged (the registry holds no empty session) |
| Sessions.RemovalKeepsWellFormed | server/sessions.js:29-30 | after removal every stored session is still non-empty with valid players, because an emptied session is deleted |
| Sessions.RemovalKeepsGameMaster | server/sessions.js:29 | a session that survives removal keeps its game-master id and contains no player with the removed id |
| Sessions.RemovalIdempotent | server/sessions.js:26-31 | removing the same player from the same session twice equals removing them once |
| Sessions.SessionStore.constructor | server/sessions.js:4 | the registry starts empty |
| Sessions.SessionStore.CreateSession | server/sessions.js:7-15 | the session is (re)set to one player, the game master, with score 0 and 3 attempts, that game-master id, null question and answer, and state waiting; other sessions are unchanged |
| Sessions.SessionStore.AddPlayer | server/sessions.js:18-23 | an unknown session returns None and changes nothing; otherwise one player with score 0 and 3 attempts is appended at the end, the existing players, game master and state are kept, and the session is returned |
| Sessions.SessionStore.RemovePlayer | server/sessions.js:26-31 | the new registry is `Removal` of the old one, and the registry invariant is kept |
| Sessions.SessionStore.ResetAttempts | server/sessions.js:34-38 | the loop leaves the session's players equal to `ResetAll` of the old players; an unknown session is left unchanged |
| Matching.TrimStartSpec | server/server.js:112 | the leading half of trim keeps a suffix of its input, drops only white space, and leaves no white space in front |
| Matching.TrimEndSpec | server/server.js:112 | the trailing half of trim keeps a prefix, drops only white space, and leaves no white space behind |
| Matching.TrimSpec | server/server.js:112 | trim returns a contiguous part of its input with white space on both sides removed and no white space at either end |
| Matching.TrimStartPadded | server/server.js:112 | the leading half of trim removes exactly the white space in front of a string that does not start with any |
| Matching.TrimEndPadded | server/server.js:112 | the trailing half of trim removes exactly the white space behind a string that does not end with any |
| Matching.TrimPadded | server/server.js:112 | trimming a trimmed string padded with any white space on both sides gives back that string |
| Matching.TrimIdempotent | server/server.js:112 | trimming twice equals trimming once |
| Matching.Lower | server/server.js:112 | lower-casing keeps the length |
| Matching.LowerEqualIff | server/server.js:112 | two strings lower-case to the same string if and only if they are equal up to the case of letters |
| Matching.LowerCharKeepsWhitespace | server/server.js:112 | lower-casing neither creates nor removes white space |
| Matching.MatchesPaddedCaseVariant | server/server.js:112 | any case variant of the trimmed answer, with any white space around it, matches |
| Matching.MatchesMeansSameIgnoringCase | server/server.js:112 | a match means the trimmed guess and the trimmed answer are equal up to case |
| Matching.TrimParis | server/server.js:112 | the answer "Paris" is its own trim |
| Matching.ParisAcceptsLowerCase | server/server.js:112 | the answer "Paris" accepts "paris" |
| Matching.ParisAcceptsPadded | server/server.js:112 | the answer "Paris" accepts " Paris " |
| Matching.ParisAcceptsUpperCase | server/server.js:112 | the answer "Paris" accepts "PARIS" |
| Matching.ParisRejectsPrefix | server/server.js:112 | the answer "Paris" rejects "pari" |
| Rounds.FindPlayer | server/server.js:97-98 | returns the index of the first player with the id, or None exactly when no player has it |
| Rounds.GuessedEffect | server/server.js:103-124 | an accepted guess takes exactly one attempt from the guesser and gives the guesser exactly 10 points if and only if it matches; every other player, all ids and names, and the game master stay unchanged; a match sets waiting and clears question and answer; a mismatch changes nothing but that attempt count |
| Rounds.AttemptedKeepsWellFormed | server/server.js:100-103 | spending an attempt the player has keeps the session well formed: attempts never drop below 0 |
| Rounds.WonKeepsWellFormed | server/server.js:113 | adding 10 points keeps scores non-negative multiples of 10 |
| Rounds.GuessedKeepsWellFormed | server/server.js:100-124 | an accepted guess, matched or not, keeps the session well formed |
| Rounds.WithQuestionKeepsWellFormed | server/server.js:44-47 | setting a question keeps the session well formed |
| Rounds.ScoresNeverDecrease | server/server.js:113 | no transition (set question, start, time up, guess) lowers any player's score or reorders the players |
| Rounds.CorrectGuessLeavesTimerToEnd | server/server.js:75-85 | after a correct guess the next tick always ends the round once more, with the answer already cleared, and leaves the session as the guess left it |
| Rounds.PendingTickClearsNewQuestion | server/server.js:75-84 | a tick of a still-pending interval ends a round that a new question has made ready, and clears that question and answer |
| Server.RemoveFromAllStep | server/server.js:140-143 | removing the player from one more session is one more removePlayer, whatever the order of the sessions |
| Server.DisconnectLeavesNoTrace | server/server.js:138-144 | after a disconnect the player is in no session, every session is still well formed, and a session the player was not in is unchanged |
| Server.CountdownsStep | server/server.js:139-144 | each further leave in the disconnect loop keeps the countdowns exactly those of the surviving sessions: only a session it deletes loses its countdown |
| Server.ReportsExactlyStep | server/server.js:141-142 | each further leave in the disconnect loop keeps the broadcasts at exactly one snapshot per visited session that still exists: no other event, and no two for the same room |
| Server.GameServer.constructor | server/server.js:13-15 | the server starts with no sessions, no broadcasts and no intervals |
| Server.GameServer.UpdateSession | server/server.js:146-154 | appends the session's snapshot to the broadcasts, or nothing when the session is gone |
| Server.GameServer.JoinSession | server/server.js:22-35 | an empty session id is refused with no change; otherwise the caller creates the session as its game master, or is appended to it, and the snapshot is broadcast |
| Server.GameServer.SetQuestion | server/server.js:38-52 | a missing session or a caller who is not the game master is refused with no change; otherwise question and answer are stored as given, the state becomes ready, all attempts become 3, and only the question is announced before the snapshot |
| Server.GameServer.StartGame | server/server.js:55-68 | a missing session or a caller who is not the game master is refused with no change; otherwise the state becomes running from any state, game_started carries the stored question and the given time, and a countdown of that time starts |
| Server.GameServer.Tick | server/server.js:70-87 | a tick decrements the countdown and broadcasts it; at 0 or below, or when the state is no longer running, the countdown stops, round_end "Time up" with no winner reveals the stored answer, question and answer are cleared and the state is waiting |
| Server.GameServer.SubmitAnswer | server/server.js:91-128 | refuses a missing session, a round not running, a caller who is not a player, or a caller without attempts, each with no change; otherwise the first matching player loses one attempt, which is announced; on a match the player gains 10, round_end names the winner and reveals the answer, and the round is over; a null answer crashes after the attempt is counted |
| Server.GameServer.LeaveSession | server/server.js:131-136 | the new registry is `Removal` of the old one; a deleted session loses its countdown; the snapshot, if any, is broadcast |
| Server.GameServer.Disconnect | server/server.js:139-144 | the loop removes the caller from every session and deletes the emptied ones; the countdowns of deleted sessions are dropped; exactly one snapshot is broadcast for each session that remains (no room twice), and nothing else |
| Scenarios.OpenRound | server/server.js:22-68 | two joins, a question and a start leave exactly one running session with two fresh players and a 60-tick countdown |

## Left out

- Transport: socket.io and express plumbing is not modelled. This covers
  `socket.join`/`leave`, the delivery of `io.to(room).emit`, the ack
  callbacks, logging and `server.listen`. Broadcasts are modelled as an
  ordered outbox of event values, each tagged with its room.
- Caller identity: the caller's connection id is a parameter of every
  handler.
- Timing: the one-second wall-clock period of `setInterval` is not modelled.
  The scheduler decides when `Tick` runs.
- Server.GameServer.StartGame: models a single countdown per session. A
  repeated `start_game` replaces the running countdown, whereas the code
  starts a second interval beside the first.
- Server.GameServer.LeaveSession: drops the countdown of a session it
  deletes. In the code, that interval's closure keeps ticking on the
  detached session object.
- Server.GameServer.Disconnect: same as LeaveSession for the countdowns of
  deleted sessions. The order in which sessions are visited is left open,
  where the code visits them in `Object.entries` order (integer-like ids
  ascending, then the others in insertion order).
- Matching.Lower: folds only ASCII letters. JavaScript `toLowerCase` also
  folds the rest of Unicode. `trim` is modelled with its full white-space
  set.
- Server.GameServer.SubmitAnswer: models the exception that a null answer
  causes as the acknowledgement `Crashed`. It does not model the process
  fault that follows.
- Inherited object keys: session ids that name inherited `Object.prototype`
  properties (`toString`, `constructor`, `__proto__` and the like) are not
  modelled. The registry is a plain JavaScript object, so such an id looks
  present to the code. The code then throws in `join_session` and
  `leave_session`, and answers "Only GM can ..." in `set_question` and
  `start_game`, and "No active round" in `submit_answer`. The model's map
  treats such an id like any other absent key.
- Payload shapes: a payload that is not an object, or whose guess is not a
  string, is not modelled. All payload fields are strings or integers.
- Interface: the client user interface in `client/` is not part of this
  model.
