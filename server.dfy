/**
  The socket handlers of the game server, one method per event, over the
  shared session registry. Broadcasts are appended to `outbox`; the interval
  that `start_game` schedules is a countdown per session, advanced by `Tick`.
 */
module Server {
  import opened Game
  import opened Sessions
  import opened Matching
  import opened Rounds

  /** The registry after the player has been removed from each session named
      in `keys`, deleting every session this leaves empty. */
  function RemoveFromAll(sessions: map<string, Session>, playerId: string, keys: set<string>): map<string, Session> {
    map k | k in sessions && (k !in keys || Without(sessions[k].players, playerId) != []) ::
      if k in keys then sessions[k].(players := Without(sessions[k].players, playerId)) else sessions[k]
  }

  /** Removing from one session more is one more removePlayer: the loop of
      `disconnect` computes RemoveFromAll, whatever order it visits the keys in. */
  lemma RemoveFromAllStep(sessions: map<string, Session>, playerId: string, done: set<string>, k: string)
    requires k in sessions && k !in done
    ensures Removal(RemoveFromAll(sessions, playerId, done), k, playerId) == RemoveFromAll(sessions, playerId, done + {k})
  {
    var before := RemoveFromAll(sessions, playerId, done);
    var after := RemoveFromAll(sessions, playerId, done + {k});
    assert k in before && before[k] == sessions[k];
    var r := Removal(before, k, playerId);
    assert r.Keys == after.Keys;
    forall x | x in r ensures r[x] == after[x] {
      if x != k {
        assert r[x] == before[x];
      }
    }
  }

  /** After a disconnect the player is in no session; every remaining session
      is well formed; and a session the player was not in is unchanged. */
  lemma DisconnectLeavesNoTrace(sessions: map<string, Session>, playerId: string)
    requires AllWellFormed(sessions)
    ensures var r := RemoveFromAll(sessions, playerId, sessions.Keys);
      && AllWellFormed(r)
      && (forall k :: k in r ==> forall p :: p in r[k].players ==> p.id != playerId)
      && (forall k :: k in sessions && (forall p :: p in sessions[k].players ==> p.id != playerId) ==>
            k in r && r[k] == sessions[k])
  {
    var r := RemoveFromAll(sessions, playerId, sessions.Keys);
    forall k | k in sessions && (forall p :: p in sessions[k].players ==> p.id != playerId)
      ensures k in r && r[k] == sessions[k]
    {
      WithoutAbsent(sessions[k].players, playerId);
    }
  }

  /** `events` are the snapshots sent by a loop over the sessions in `done`:
      exactly one for each of them that still exists in `sessions`, and no other. */
  predicate ReportsExactly(events: seq<Event>, sessions: map<string, Session>, done: set<string>) {
    && (forall e :: e in events ==>
          e.SessionUpdate? && e.room in sessions && e.room in done && e == SessionUpdateOf(e.room, sessions[e.room]))
    && (forall k :: k in sessions && k in done ==> SessionUpdateOf(k, sessions[k]) in events)
    && (forall i, j :: 0 <= i < j < |events| ==> events[i].room != events[j].room)
  }

  /** One more leave in the loop of `disconnect` keeps the report exact. */
  lemma ReportsExactlyStep(events: seq<Event>, sessions: map<string, Session>, done: set<string>,
                           k: string, sessions': map<string, Session>)
    requires ReportsExactly(events, sessions, done)
    requires k !in done
    requires sessions'.Keys <= sessions.Keys
    requires forall x :: x in sessions && x != k ==> x in sessions' && sessions'[x] == sessions[x]
    ensures ReportsExactly(events + Snapshot(sessions', k), sessions', done + {k})
  {
  }

  /** One more leave in the loop of `disconnect` keeps the countdowns those of
      the surviving sessions: only a deleted session loses its countdown. */
  lemma CountdownsStep(c0: map<string, int>, sessions: map<string, Session>, k: string,
                       sessions': map<string, Session>, countdowns: map<string, int>)
    requires sessions'.Keys <= sessions.Keys
    requires forall x :: x in sessions && x != k ==> x in sessions'
    requires countdowns == map x | x in c0 && x in sessions :: c0[x]
    ensures (if k in sessions' then countdowns else countdowns - {k}) == map x | x in c0 && x in sessions' :: c0[x]
  {
  }

  /** Every running session has an interval: start_game always starts one, and
      only the tick that leaves "running" behind stops it. */
  predicate RunningHasCountdown(sessions: map<string, Session>, countdowns: map<string, int>) {
    forall k :: k in sessions && sessions[k].state == Running ==> k in countdowns
  }

  /** The socket.io server: the session registry, the broadcasts sent so far,
      and the countdown of each session's running interval. */
  class GameServer {
    const store: SessionStore
    var outbox: seq<Event>
    var countdowns: map<string, int>

    ghost predicate Valid()
      reads this, store
    {
      && store.Valid()
      && countdowns.Keys <= store.sessions.Keys
      && RunningHasCountdown(store.sessions, countdowns)
    }

    constructor ()
      ensures Valid() && fresh(store)
      ensures store.sessions == map[] && outbox == [] && countdowns == map[]
    {
      store := new SessionStore();
      outbox := [];
      countdowns := map[];
    }

    /** updateSession: broadcasts the snapshot of the session, if it exists. */
    method UpdateSession(sessionId: string)
      modifies this`outbox
      ensures outbox == old(outbox) + Snapshot(store.sessions, sessionId)
    {
      outbox := outbox + Snapshot(store.sessions, sessionId);
    }

    /** join_session: creates the session with the caller as game master, or
        appends the caller to it. Only an empty session id is refused. */
    method JoinSession(caller: string, sessionId: string, name: string) returns (ack: Ack)
      requires Valid()
      modifies this, store
      ensures Valid() && countdowns == old(countdowns)
      ensures sessionId == "" ==>
        ack == Error("No sessionId") && store.sessions == old(store.sessions) && outbox == old(outbox)
      ensures sessionId != "" ==>
        && ack == Ok
        && store.sessions == old(store.sessions)[sessionId :=
             if sessionId in old(store.sessions) then WithPlayer(old(store.sessions)[sessionId], caller, name)
             else NewSession(caller, name)]
        && outbox == old(outbox) + Snapshot(store.sessions, sessionId)
    {
      if sessionId == "" {
        return Error("No sessionId");
      }
      if sessionId !in store.sessions {
        store.CreateSession(sessionId, caller, name);
      } else {
        var _ := store.AddPlayer(sessionId, caller, name);
      }
      ack := Ok;
      UpdateSession(sessionId);
    }

    /** set_question: only the game master may set the question; the notice
        carries the question and not the answer. */
    method SetQuestion(caller: string, sessionId: string, question: string, answer: string) returns (ack: Ack)
      requires Valid()
      modifies this, store
      ensures Valid() && countdowns == old(countdowns)
      ensures sessionId !in old(store.sessions) ==>
        ack == Error("No session") && store.sessions == old(store.sessions) && outbox == old(outbox)
      ensures sessionId in old(store.sessions) && old(store.sessions)[sessionId].gameMasterId != caller ==>
        ack == Error("Only GM can set question") && store.sessions == old(store.sessions) && outbox == old(outbox)
      ensures sessionId in old(store.sessions) && old(store.sessions)[sessionId].gameMasterId == caller ==>
        && ack == Ok
        && store.sessions == old(store.sessions)[sessionId := WithQuestion(old(store.sessions)[sessionId], question, answer)]
        && outbox == old(outbox) + [QuestionSet(sessionId, question)] + Snapshot(store.sessions, sessionId)
    {
      if sessionId !in store.sessions {
        return Error("No session");
      }
      var s := store.sessions[sessionId];
      if s.gameMasterId != caller {
        return Error("Only GM can set question");
      }
      store.sessions := store.sessions[sessionId := s.(currentQuestion := Some(question), answer := Some(answer), state := Ready)];
      store.ResetAttempts(sessionId);
      outbox := outbox + [QuestionSet(sessionId, question)];
      ack := Ok;
      UpdateSession(sessionId);
    }

    /** start_game: only the game master may start; the state becomes
        "running" from any state, and a countdown of `time` starts. */
    method StartGame(caller: string, sessionId: string, time: int) returns (ack: Ack)
      requires Valid()
      modifies this, store
      ensures Valid()
      ensures sessionId !in old(store.sessions) ==>
        && ack == Error("No session") && store.sessions == old(store.sessions)
        && outbox == old(outbox) && countdowns == old(countdowns)
      ensures sessionId in old(store.sessions) && old(store.sessions)[sessionId].gameMasterId != caller ==>
        && ack == Error("Only GM can start") && store.sessions == old(store.sessions)
        && outbox == old(outbox) && countdowns == old(countdowns)
      ensures sessionId in old(store.sessions) && old(store.sessions)[sessionId].gameMasterId == caller ==>
        && ack == Ok
        && store.sessions == old(store.sessions)[sessionId := Started(old(store.sessions)[sessionId])]
        && outbox == old(outbox) + [GameStarted(sessionId, old(store.sessions)[sessionId].currentQuestion, time)]
        && countdowns == old(countdowns)[sessionId := time]
    {
      if sessionId !in store.sessions {
        return Error("No session");
      }
      var s := store.sessions[sessionId];
      if s.gameMasterId != caller {
        return Error("Only GM can start");
      }
      store.sessions := store.sessions[sessionId := s.(state := Running)];
      outbox := outbox + [GameStarted(sessionId, s.currentQuestion, time)];
      ack := Ok;
      countdowns := countdowns[sessionId := time];
    }

    /** One firing of the interval: the countdown drops by one and is
        broadcast; once it is at most 0, or the state is no longer "running",
        the interval stops and the round ends with no winner. */
    method Tick(sessionId: string)
      requires Valid()
      modifies this, store
      ensures Valid()
      ensures sessionId !in old(countdowns) ==>
        store.sessions == old(store.sessions) && outbox == old(outbox) && countdowns == old(countdowns)
      ensures sessionId in old(countdowns) ==>
        var s, left := old(store.sessions)[sessionId], old(countdowns)[sessionId] - 1;
        if TickEndsRound(left, s) then
          && countdowns == old(countdowns) - {sessionId}
          && store.sessions == old(store.sessions)[sessionId := TimeUp(s)]
          && outbox == old(outbox) + [TimerTick(sessionId, left), RoundEnd(sessionId, None, s.answer, "Time up")]
                                   + Snapshot(store.sessions, sessionId)
        else
          && countdowns == old(countdowns)[sessionId := left]
          && store.sessions == old(store.sessions)
          && outbox == old(outbox) + [TimerTick(sessionId, left)]
    {
      if sessionId !in countdowns {
        return;
      }
      var countdown := countdowns[sessionId] - 1;
      outbox := outbox + [TimerTick(sessionId, countdown)];
      var s := store.sessions[sessionId];
      if countdown <= 0 || s.state != Running {
        countdowns := countdowns - {sessionId};
        outbox := outbox + [RoundEnd(sessionId, None, s.answer, "Time up")];
        store.sessions := store.sessions[sessionId := s.(currentQuestion := None, answer := None, state := Waiting)];
        UpdateSession(sessionId);
      } else {
        countdowns := countdowns[sessionId := countdown];
      }
    }

    /** submit_answer: refused unless the session exists, a round is running,
        the caller is a player and has attempts left. An accepted guess costs
        the first player with the caller's id one attempt; a match gives that
        player ten points and ends the round. With no answer stored the
        comparison throws after the attempt was counted and announced. */
    method SubmitAnswer(caller: string, sessionId: string, guess: string) returns (ack: Ack)
      requires Valid()
      modifies this, store
      ensures Valid() && countdowns == old(countdowns)
      ensures ack.Error? ==> store.sessions == old(store.sessions) && outbox == old(outbox)
      ensures var m := old(store.sessions);
        if sessionId !in m then ack == Error("No session")
        else if m[sessionId].state != Running then ack == Error("No active round")
        else match FindPlayer(m[sessionId].players, caller)
          case None => ack == Error("Not in session")
          case Some(i) =>
            var s := m[sessionId];
            var p := s.players[i];
            var attempt := PlayerAttempt(sessionId, p.id, p.name, p.attemptsLeft - 1, guess);
            if p.attemptsLeft <= 0 then ack == Error("No attempts left")
            else if s.answer.None? then
              && ack == Crashed
              && store.sessions == m[sessionId := Attempted(s, i)]
              && outbox == old(outbox) + [attempt]
            else
              && ack == Ok
              && var hit := Matches(guess, s.answer.value);
              && store.sessions == m[sessionId := Guessed(s, i, hit)]
              && outbox == old(outbox) + [attempt]
                 + (if hit then [RoundEnd(sessionId, Some(Winner(p.id, p.name)), s.answer, "Correct guess")] else [])
                 + Snapshot(store.sessions, sessionId)
    {
      if sessionId !in store.sessions {
        return Error("No session");
      }
      var s := store.sessions[sessionId];
      if s.state != Running {
        return Error("No active round");
      }
      assert sessionId in countdowns;
      var found := FindPlayer(s.players, caller);
      if found.None? {
        return Error("Not in session");
      }
      var i := found.value;
      if s.players[i].attemptsLeft <= 0 {
        return Error("No attempts left");
      }
      ghost var s0 := s;
      var player := s.players[i].(attemptsLeft := s.players[i].attemptsLeft - 1);
      s := s.(players := s.players[i := player]);
      assert s == Attempted(s0, i);
      AttemptedKeepsWellFormed(s0, i);
      store.sessions := store.sessions[sessionId := s];
      outbox := outbox + [PlayerAttempt(sessionId, player.id, player.name, player.attemptsLeft, guess)];
      if s.answer.None? {
        return Crashed;
      }
      var hit := Matches(guess, s.answer.value);
      GuessedKeepsWellFormed(s0, i, hit);
      if hit {
        player := player.(score := player.score + CorrectGuessPoints);
        s := s.(players := s.players[i := player], state := Waiting);
        outbox := outbox + [RoundEnd(sessionId, Some(Winner(player.id, player.name)), s.answer, "Correct guess")];
        s := s.(currentQuestion := None, answer := None);
        store.sessions := store.sessions[sessionId := s];
      }
      UpdateSession(sessionId);
      ack := Ok;
    }

    /** leave_session: removes the caller (deleting the session if it is left
        empty, together with its countdown) and broadcasts the snapshot. */
    method LeaveSession(caller: string, sessionId: string)
      requires Valid()
      modifies this, store
      ensures Valid()
      ensures store.sessions == Removal(old(store.sessions), sessionId, caller)
      ensures countdowns == if sessionId in store.sessions then old(countdowns) else old(countdowns) - {sessionId}
      ensures outbox == old(outbox) + Snapshot(store.sessions, sessionId)
    {
      store.RemovePlayer(sessionId, caller);
      if sessionId !in store.sessions {
        countdowns := countdowns - {sessionId};
      }
      UpdateSession(sessionId);
    }

    /** disconnect: leave_session for every session in the registry, each
        followed by that session's snapshot. */
    method Disconnect(caller: string)
      requires Valid()
      modifies this, store
      ensures Valid()
      ensures store.sessions == RemoveFromAll(old(store.sessions), caller, old(store.sessions).Keys)
      ensures countdowns == map k | k in old(countdowns) && k in store.sessions :: old(countdowns)[k]
      ensures old(outbox) <= outbox
      ensures ReportsExactly(outbox[|old(outbox)|..], store.sessions, old(store.sessions).Keys)
    {
      ghost var m0, c0, out0 := store.sessions, countdowns, outbox;
      var todo := store.sessions.Keys;
      assert store.sessions == RemoveFromAll(m0, caller, {});
      while todo != {}
        invariant Valid()
        invariant todo <= m0.Keys
        invariant store.sessions == RemoveFromAll(m0, caller, m0.Keys - todo)
        invariant countdowns == map k | k in c0 && k in store.sessions :: c0[k]
        invariant out0 <= outbox
        invariant ReportsExactly(outbox[|out0|..], store.sessions, m0.Keys - todo)
        decreases todo
      {
        var k :| k in todo;
        RemoveFromAllStep(m0, caller, m0.Keys - todo, k);
        assert m0.Keys - todo + {k} == m0.Keys - (todo - {k});
        ghost var before, reported := store.sessions, outbox[|out0|..];
        ghost var timers := countdowns;
        LeaveSession(caller, k);
        CountdownsStep(c0, before, k, store.sessions, timers);
        assert outbox[|out0|..] == reported + Snapshot(store.sessions, k);
        ReportsExactlyStep(reported, before, m0.Keys - todo, k, store.sessions);
        todo := todo - {k};
      }
      assert m0.Keys - todo == m0.Keys;
    }
  }
}
