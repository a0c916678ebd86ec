/**
 * Sequences of events replayed against the store's contracts alone, as a
 * client of the handlers sees them.
 */
module Scenarios {
  import opened Seqs
  import opened Rooms
  import Chance
  import Codes
  import Impostor
  import Tally
  import opened Store

  /**
   * Create a trivia room, Alice and Bob join, Alice starts, both answer,
   * and next-round moves on: question 1, no answers.
   */
  method TriviaRound(draws: seq<real>, now: int) returns (room: Room)
    requires |draws| == Codes.CodeLength && forall i :: 0 <= i < |draws| ==> Chance.IsDraw(draws[i])
    ensures Ids(room.players) == ["alice", "bob"]
    ensures room.status == Playing
    ensures room.gameData == TriviaData(At(1), [], Some(TriviaQuestions))
  {
    var store := new RoomStore();
    var code := store.Create("trivia", draws, now);
    var sent := store.Join("alice", code, "Alice");
    sent := store.Join("bob", code, "Bob");
    var threw;
    assert Ids(store.rooms[code].players) == ["alice", "bob"];
    sent, threw := store.StartGame("alice", code, 0.0, 0.0, 0.0);
    assert Member(store.rooms, code, "alice") && Member(store.rooms, code, "bob") by {
      assert Ids(store.rooms[code].players) == ["alice", "bob"];
    }
    sent, threw := store.SubmitAnswer("alice", code, "2");
    assert store.rooms[code].gameData.choices == [Choice("alice", "2")];
    assert Member(store.rooms, code, "bob") by {
      assert Ids(store.rooms[code].players) == ["alice", "bob"];
    }
    sent, threw := store.SubmitAnswer("bob", code, "1");
    sent := store.NextRound("bob", code);
    room := store.rooms[code];
    assert Ids(room.players) == ["alice", "bob"];
  }

  /** Joining twice from one connection leaves one player and sends nothing the second time. */
  method JoinTwice(draws: seq<real>, now: int) returns (room: Room, second: seq<Outbound>)
    requires |draws| == Codes.CodeLength && forall i :: 0 <= i < |draws| ==> Chance.IsDraw(draws[i])
    ensures room.players == [Player("alice", "Alice", 0, None)]
    ensures second == []
  {
    var store := new RoomStore();
    var code := store.Create("voting", draws, now);
    var first := store.Join("alice", code, "Alice");
    assert Ids(store.rooms[code].players) == ["alice"];
    second := store.Join("alice", code, "Alice again");
    room := store.rooms[code];
  }

  /** Only the host starts the game: Bob's attempt changes nothing, Alice's starts it. */
  method HostOnly(draws: seq<real>, now: int) returns (before: Room, after: Room)
    requires |draws| == Codes.CodeLength && forall i :: 0 <= i < |draws| ==> Chance.IsDraw(draws[i])
    ensures before.status == Waiting && before.gameData == Blank
    ensures after.status == Playing
  {
    var store := new RoomStore();
    var code := store.Create("trivia", draws, now);
    var sent := store.Join("alice", code, "Alice");
    sent := store.Join("bob", code, "Bob");
    var threw;
    sent, threw := store.StartGame("bob", code, 0.5, 0.5, 0.5);
    before := store.rooms[code];
    sent, threw := store.StartGame("alice", code, 0.5, 0.5, 0.5);
    after := store.rooms[code];
  }

  /** Three players start an impostor game: exactly one of them is the impostor. */
  method ImpostorDeal(draws: seq<real>, now: int, wordDraw: real, impostorDraw: real) returns (room: Room)
    requires |draws| == Codes.CodeLength && forall i :: 0 <= i < |draws| ==> Chance.IsDraw(draws[i])
    requires Chance.IsDraw(wordDraw) && Chance.IsDraw(impostorDraw)
    ensures |room.players| == 3
    ensures Impostor.CountWord(room.players, ImpostorMarker) == 1
    ensures room.gameData == ImpostorData(Answering, [], [])
  {
    var store := new RoomStore();
    var code := store.Create("impostor", draws, now);
    var sent := store.Join("a", code, "Ana");
    sent := store.Join("b", code, "Beto");
    sent := store.Join("c", code, "Carla");
    assert Ids(store.rooms[code].players) == ["a", "b", "c"];
    var threw;
    sent, threw := store.StartGame("a", code, wordDraw, impostorDraw, 0.0);
    room := store.rooms[code];
  }

  /** Two votes for Bob tally to one entry with count 2. */
  lemma TwoVotesForBob()
    ensures Tally.Tally(["bob", "bob"]) == [Tally.Count("bob", 2)]
  {
    assert ["bob", "bob"][..1] == ["bob"];
    assert ["bob"][..0] == [];
  }

  /** Ranking those votes among Alice and Bob puts Bob first with two votes. */
  lemma BobWins(players: seq<Player>)
    requires players == [Player("alice", "Alice", 0, None), Player("bob", "Bob", 0, None)]
    ensures Tally.Rank(Tally.Tally(["bob", "bob"]), players) == [Ranked(Some(players[1]), 2)]
  {
    TwoVotesForBob();
    assert Ids(players)[1] == "bob";
    assert FindPlayer(players, "bob") == Some(players[1]);
    var t := [Tally.Count("bob", 2)];
    assert Tally.Resolve(t, players) == [Ranked(Some(players[1]), 2)];
  }

  /** Two players both vote for Bob: the poll resolves with Bob ranked first with two votes. */
  method VotingRound(draws: seq<real>, now: int) returns (resolved: Room)
    requires |draws| == Codes.CodeLength && forall i :: 0 <= i < |draws| ==> Chance.IsDraw(draws[i])
    ensures resolved.gameData.VotingData? && resolved.gameData.poll == Results
    ensures resolved.gameData.results == Some([Ranked(Some(Player("bob", "Bob", 0, None)), 2)])
  {
    var store := new RoomStore();
    var code := store.Create("voting", draws, now);
    var sent := store.Join("alice", code, "Alice");
    sent := store.Join("bob", code, "Bob");
    var players := store.rooms[code].players;
    assert players == [Player("alice", "Alice", 0, None), Player("bob", "Bob", 0, None)];
    assert Ids(players) == ["alice", "bob"];
    var threw;
    sent, threw := store.StartGame("alice", code, 0.0, 0.0, 0.0);
    ghost var q := store.rooms[code].gameData.question;
    assert store.rooms[code].players == players;
    assert store.rooms[code].gameData == VotingData(Polling, q, [], Some([]));
    assert Member(store.rooms, code, "alice");
    sent, threw := store.SubmitAnswer("alice", code, "bob");
    assert store.rooms[code].players == players;
    assert store.rooms[code].gameData == VotingData(Polling, q, ["bob"], Some([]));
    assert Member(store.rooms, code, "bob");
    assert ["bob"] + ["bob"] == ["bob", "bob"];
    BobWins(players);
    sent, threw := store.SubmitAnswer("bob", code, "bob");
    resolved := store.rooms[code];
  }

  /** The last player leaving deletes the room; the one update sent shows it empty. */
  method LastPlayerLeaves(draws: seq<real>, now: int) returns (kept: bool, sent: seq<Outbound>)
    requires |draws| == Codes.CodeLength && forall i :: 0 <= i < |draws| ==> Chance.IsDraw(draws[i])
    ensures !kept
    ensures |sent| == 1
    ensures forall m :: m in sent ==> m.Broadcast? && m.event == RoomUpdate && m.snapshot.players == []
  {
    var store := new RoomStore();
    var code := store.Create("impostor", draws, now);
    var joined := store.Join("alice", code, "Alice");
    ghost var before := store.rooms;
    assert before.Keys == {code};
    assert before[code].players == [Player("alice", "Alice", 0, None)];
    assert Member(before, code, "alice") by {
      assert Ids(before[code].players)[0] == "alice";
    }
    assert Without(before[code], "alice").players == [];
    sent := store.Disconnect("alice");
    kept := code in store.rooms;
    assert Notice(before, code, "alice") in sent;
    // Every update goes to `code` and no room is named twice, so there is one.
    ghost var to := seq(|sent|, k requires 0 <= k < |sent| => sent[k].to);
    assert Distinct(to);
    DistinctCardinality(to);
    assert (set c | c in to) == {code};
  }
}
