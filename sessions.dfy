/**
  The in-memory session registry: a dictionary from session id to session
  record, with the four operations that create, extend, shrink and reset
  a session.
 */
module Sessions {
  import opened Game

  /** The players whose id differs from `id`, in their original order
      (the `filter` of removePlayer). */
  function Without(players: seq<Player>, id: string): (r: seq<Player>)
    ensures |r| <= |players|
    ensures forall p :: p in r <==> p in players && p.id != id
  {
    if players == [] then []
    else if players[0].id == id then Without(players[1..], id)
    else [players[0]] + Without(players[1..], id)
  }

  /** Filtering distributes over concatenation, so the players that remain
      keep their relative order. */
  lemma {:induction false} WithoutAppend(a: seq<Player>, b: seq<Player>, id: string)
    ensures Without(a + b, id) == Without(a, id) + Without(b, id)
  {
    if a == [] {
      assert a + b == b;
    } else {
      assert (a + b)[0] == a[0];
      assert (a + b)[1..] == a[1..] + b;
      WithoutAppend(a[1..], b, id);
      if a[0].id == id {
        calc {
          Without(a + b, id);
          Without(a[1..] + b, id);
          Without(a[1..], id) + Without(b, id);
        }
      } else {
        calc {
          Without(a + b, id);
          [a[0]] + Without(a[1..] + b, id);
          [a[0]] + (Without(a[1..], id) + Without(b, id));
          ([a[0]] + Without(a[1..], id)) + Without(b, id);
        }
      }
    }
  }

  /** Removing a player who is not there changes nothing. */
  lemma {:induction false} WithoutAbsent(players: seq<Player>, id: string)
    requires forall p :: p in players ==> p.id != id
    ensures Without(players, id) == players
  {
    if players != [] {
      WithoutAbsent(players[1..], id);
    }
  }

  /** Removing the same player twice is the same as removing them once. */
  lemma WithoutIdempotent(players: seq<Player>, id: string)
    ensures Without(Without(players, id), id) == Without(players, id)
  {
    WithoutAbsent(Without(players, id), id);
  }

  /** The players after resetAttempts: the same players in the same order,
      each with three attempts and nothing else changed. */
  function ResetAll(players: seq<Player>): (r: seq<Player>)
    ensures |r| == |players|
    ensures forall i :: 0 <= i < |players| ==>
      r[i].id == players[i].id && r[i].name == players[i].name &&
      r[i].score == players[i].score && r[i].attemptsLeft == MaxAttempts
  {
    if players == [] then []
    else [players[0].(attemptsLeft := MaxAttempts)] + ResetAll(players[1..])
  }

  /** A session with one more player, appended at the end (ids are not
      checked for duplicates). */
  function WithPlayer(s: Session, playerId: string, playerName: string): Session {
    s.(players := s.players + [NewPlayer(playerId, playerName)])
  }

  /** The registry after removePlayer(sessionId, playerId). */
  function Removal(sessions: map<string, Session>, sessionId: string, playerId: string): (r: map<string, Session>)
    ensures r.Keys <= sessions.Keys
    ensures sessionId !in sessions ==> r == sessions
    ensures forall k :: k in sessions && k != sessionId ==> k in r && r[k] == sessions[k]
    ensures sessionId in sessions ==> (sessionId in r <==> Without(sessions[sessionId].players, playerId) != [])
    ensures sessionId in r ==> r[sessionId] == sessions[sessionId].(players := Without(sessions[sessionId].players, playerId))
  {
    if sessionId !in sessions then sessions
    else
      var remaining := Without(sessions[sessionId].players, playerId);
      if remaining == [] then sessions - {sessionId}
      else sessions[sessionId := sessions[sessionId].(players := remaining)]
  }

  /** The invariant of the registry: every stored session is well formed, in
      particular none has an empty player list. */
  predicate AllWellFormed(sessions: map<string, Session>) {
    forall k :: k in sessions ==> WellFormed(sessions[k])
  }

  /** Removal keeps the invariant: a session left without players is deleted,
      the others keep a subset of their (valid) players. */
  lemma RemovalKeepsWellFormed(sessions: map<string, Session>, sessionId: string, playerId: string)
    requires AllWellFormed(sessions)
    ensures AllWellFormed(Removal(sessions, sessionId, playerId))
  {
  }

  /** Removal never touches the game master: the recorded id of the session's
      game master survives even when that player has gone. */
  lemma RemovalKeepsGameMaster(sessions: map<string, Session>, sessionId: string, playerId: string)
    requires sessionId in Removal(sessions, sessionId, playerId)
    ensures sessionId in sessions
    ensures Removal(sessions, sessionId, playerId)[sessionId].gameMasterId == sessions[sessionId].gameMasterId
    ensures forall p :: p in Removal(sessions, sessionId, playerId)[sessionId].players ==> p.id != playerId
  {
  }

  /** Removing a player whom the session does not hold leaves the registry as
      it was. (A session with no players would still be deleted; the registry
      never holds one.) */
  lemma RemovalAbsent(sessions: map<string, Session>, sessionId: string, playerId: string)
    requires sessionId in sessions ==> sessions[sessionId].players != []
    requires sessionId in sessions ==> forall p :: p in sessions[sessionId].players ==> p.id != playerId
    ensures Removal(sessions, sessionId, playerId) == sessions
  {
    if sessionId in sessions {
      WithoutAbsent(sessions[sessionId].players, playerId);
    }
  }

  /** Removing the same player from the same session twice is the same as once. */
  lemma RemovalIdempotent(sessions: map<string, Session>, sessionId: string, playerId: string)
    ensures Removal(Removal(sessions, sessionId, playerId), sessionId, playerId)
         == Removal(sessions, sessionId, playerId)
  {
    if sessionId in sessions {
      WithoutIdempotent(sessions[sessionId].players, playerId);
    }
  }

  /** The module-level `sessions` dictionary and the operations on it. */
  class SessionStore {
    var sessions: map<string, Session>

    ghost predicate Valid()
      reads this
    {
      AllWellFormed(sessions)
    }

    constructor ()
      ensures Valid() && sessions == map[]
    {
      sessions := map[];
    }

    /** Creates (or overwrites) a session whose only player is the game master. */
    method CreateSession(sessionId: string, gameMasterId: string, gameMasterName: string)
      requires Valid()
      modifies this
      ensures Valid()
      ensures sessions == old(sessions)[sessionId := NewSession(gameMasterId, gameMasterName)]
      ensures sessions[sessionId].players == [Player(gameMasterId, gameMasterName, 0, MaxAttempts)]
      ensures sessions[sessionId].gameMasterId == gameMasterId
      ensures sessions[sessionId].currentQuestion == None && sessions[sessionId].answer == None
      ensures sessions[sessionId].state == Waiting
    {
      sessions := sessions[sessionId := NewSession(gameMasterId, gameMasterName)];
    }

    /** Appends a player with score 0 and three attempts; returns the session,
        or None (and changes nothing) when the session does not exist. */
    method AddPlayer(sessionId: string, playerId: string, playerName: string) returns (r: Option<Session>)
      requires Valid()
      modifies this
      ensures Valid()
      ensures sessionId !in old(sessions) ==> r == None && sessions == old(sessions)
      ensures sessionId in old(sessions) ==>
        && sessions == old(sessions)[sessionId := WithPlayer(old(sessions)[sessionId], playerId, playerName)]
        && r == Some(sessions[sessionId])
        && sessions[sessionId].players[..|old(sessions)[sessionId].players|] == old(sessions)[sessionId].players
        && sessions[sessionId].players[|old(sessions)[sessionId].players|] == Player(playerId, playerName, 0, MaxAttempts)
        && sessions[sessionId].gameMasterId == old(sessions)[sessionId].gameMasterId
        && sessions[sessionId].state == old(sessions)[sessionId].state
    {
      if sessionId !in sessions {
        return None;
      }
      var s := WithPlayer(sessions[sessionId], playerId, playerName);
      sessions := sessions[sessionId := s];
      r := Some(s);
    }

    /** Drops every player with this id; deletes the session once it is empty. */
    method RemovePlayer(sessionId: string, playerId: string)
      requires Valid()
      modifies this
      ensures Valid()
      ensures sessions == Removal(old(sessions), sessionId, playerId)
    {
      if sessionId !in sessions {
        return;
      }
      var s := sessions[sessionId];
      var remaining := Without(s.players, playerId);
      sessions := sessions[sessionId := s.(players := remaining)];
      if |remaining| == 0 {
        sessions := sessions - {sessionId};
      }
      assert sessions == Removal(old(sessions), sessionId, playerId);
    }

    /** Sets every player's attempts back to three, one player at a time. */
    method ResetAttempts(sessionId: string)
      requires Valid()
      modifies this
      ensures Valid()
      ensures sessionId !in old(sessions) ==> sessions == old(sessions)
      ensures sessionId in old(sessions) ==>
        sessions == old(sessions)[sessionId := old(sessions)[sessionId].(players := ResetAll(old(sessions)[sessionId].players))]
    {
      if sessionId !in sessions {
        return;
      }
      var s := sessions[sessionId];
      var players := s.players;
      var i := 0;
      while i < |players|
        invariant 0 <= i <= |players| == |s.players|
        invariant forall j :: 0 <= j < i ==> players[j] == s.players[j].(attemptsLeft := MaxAttempts)
        invariant forall j :: i <= j < |players| ==> players[j] == s.players[j]
      {
        players := players[i := players[i].(attemptsLeft := MaxAttempts)];
        i := i + 1;
      }
      assert players == ResetAll(s.players);
      assert forall j :: 0 <= j < |players| ==> ValidPlayer(players[j]) by {
        forall j | 0 <= j < |players| ensures ValidPlayer(players[j]) {
          assert s.players[j] in s.players;
        }
      }
      sessions := sessions[sessionId := s.(players := players)];
    }
  }
}
