/**
  Three runs of the server, checked from the handlers' contracts alone: a
  round won by a correct guess, a question refused to a player who is not
  the game master, and a room that empties and is created anew.
 */
module Scenarios {
  import opened Game
  import opened Matching
  import Sessions
  import Rounds
  import opened Server

  /** The game master opens "r1", a second player joins, and the game master
      sets "Capital of France?" / "Paris" and starts a 60 second round. */
  method OpenRound() returns (server: GameServer)
    ensures fresh(server) && fresh(server.store) && server.Valid()
    ensures server.store.sessions == map["r1" := Session(
      [Player("gm", "Ada", 0, MaxAttempts), Player("p1", "Bob", 0, MaxAttempts)],
      "gm", Some("Capital of France?"), Some("Paris"), Running)]
    ensures server.countdowns == map["r1" := 60]
  {
    server := new GameServer();
    var ack := server.JoinSession("gm", "r1", "Ada");
    assert ack == Ok && server.store.sessions["r1"].gameMasterId == "gm";
    ack := server.JoinSession("p1", "r1", "Bob");
    var players := [Player("gm", "Ada", 0, MaxAttempts), Player("p1", "Bob", 0, MaxAttempts)];
    assert server.store.sessions["r1"].players == players;
    assert Sessions.ResetAll(players) == players;
    ack := server.SetQuestion("gm", "r1", "Capital of France?", "Paris");
    assert ack == Ok;
    assert server.outbox[|server.outbox| - 2] == QuestionSet("r1", "Capital of France?");
    ack := server.StartGame("gm", "r1", 60);
    assert ack == Ok;
  }

  /** In that round the player guesses "paris" and wins ten points; the
      pending interval then still ends the round once more, with no winner. */
  method CorrectGuessRound() {
    var server := OpenRound();
    ghost var before := server.store.sessions["r1"];
    ParisAcceptsLowerCase();
    assert Rounds.FindPlayer(before.players, "p1") == Some(1);
    var ack := server.SubmitAnswer("p1", "r1", "paris");
    assert ack == Ok;
    var s := server.store.sessions["r1"];
    assert s == Rounds.Won(Rounds.Attempted(before, 1), 1);
    assert |s.players| == 2 && s.players[0] == before.players[0];
    assert s.players[1] == Player("p1", "Bob", 10, MaxAttempts - 1);
    assert s.state == Waiting && s.answer == None && s.currentQuestion == None;
    assert server.outbox[|server.outbox| - 2] == RoundEnd("r1", Some(Winner("p1", "Bob")), Some("Paris"), "Correct guess");

    ghost var sent := server.outbox;
    server.Tick("r1");
    assert server.outbox == sent + [TimerTick("r1", 59), RoundEnd("r1", None, None, "Time up")] + Snapshot(server.store.sessions, "r1");
    assert "r1" !in server.countdowns;
  }

  /** A player who is not the game master cannot set the question, and the
      room is left as it was. */
  method NonMasterCannotSetQuestion() {
    var server := new GameServer();
    var ack := server.JoinSession("gm", "r1", "Ada");
    ack := server.JoinSession("p1", "r1", "Bob");
    ghost var rooms, sent := server.store.sessions, server.outbox;
    ack := server.SetQuestion("p1", "r1", "Capital of France?", "Paris");
    assert ack == Error("Only GM can set question");
    assert server.store.sessions == rooms && server.outbox == sent;
  }

  /** The last member leaves and the room is gone; the next join to the same
      key creates a fresh room with the joiner as game master. */
  method EmptiedRoomIsRecreated() {
    var server := new GameServer();
    var ack := server.JoinSession("gm", "r1", "Ada");
    ack := server.StartGame("gm", "r1", 5);
    server.LeaveSession("gm", "r1");
    assert "r1" !in server.store.sessions && "r1" !in server.countdowns;
    ack := server.JoinSession("p2", "r1", "Cy");
    assert server.store.sessions["r1"] == NewSession("p2", "Cy");
  }
}
