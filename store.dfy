/**
 * The process-wide room store and the handlers that change it (server.js:
 * POST /api/create and the socket events join-room, start-game,
 * submit-answer, next-round and disconnect). Each handler is one
 * uninterrupted step, as under Node's event loop; it returns the messages
 * it sends, each carrying the room as it stands when it is sent.
 */
module Store {
  import opened Rooms
  import Chance
  import Codes
  import Impostor
  import Tally

  /** `conn` has a player in the room stored under `code`. */
  ghost predicate Member(rooms: map<string, Room>, code: string, conn: string)
  {
    code in rooms && HasPlayer(rooms[code].players, conn)
  }

  /** `conn` is the first player of the room stored under `code`, its host. */
  ghost predicate IsHost(rooms: map<string, Room>, code: string, conn: string)
  {
    code in rooms && |rooms[code].players| > 0 && rooms[code].players[0].id == conn
  }

  /** The room after the player of `conn` has been spliced out of it. */
  ghost function Without(r: Room, conn: string): Room
    requires HasPlayer(r.players, conn)
  {
    r.(players := RemoveAt(r.players, FindIndex(r.players, conn)))
  }

  /** The broadcast a disconnect sends for a room that held a player of `conn`. */
  ghost function Notice(rooms: map<string, Room>, code: string, conn: string): Outbound
    requires Member(rooms, code, conn)
  {
    Broadcast(code, RoomUpdate, Without(rooms[code], conn))
  }

  /**
   * After `conn` disconnected, the room that `before` held under `code` is
   * kept as it was if `conn` had no player in it, and otherwise loses that
   * player and is kept only if players remain.
   */
  ghost predicate Settled(after: map<string, Room>, before: map<string, Room>, code: string, conn: string)
    requires code in before
  {
    if Member(before, code, conn) then
      && (code in after <==> Without(before[code], conn).players != [])
      && (code in after ==> after[code] == Without(before[code], conn))
    else
      code in after && after[code] == before[code]
  }

  /** Settled depends only on the entry under `code`. */
  lemma SettledFrame(after: map<string, Room>, prior: map<string, Room>, before: map<string, Room>, code: string, conn: string)
    requires code in before && Settled(prior, before, code, conn)
    requires code in after <==> code in prior
    requires code in after ==> after[code] == prior[code]
    ensures Settled(after, before, code, conn)
  {
  }

  /** Settled reads only the entry of `before` under `code`. */
  lemma SettledSame(after: map<string, Room>, prior: map<string, Room>, before: map<string, Room>, code: string, conn: string)
    requires code in prior && code in before && prior[code] == before[code]
    ensures Settled(after, prior, code, conn) == Settled(after, before, code, conn)
    ensures Member(prior, code, conn) == Member(before, code, conn)
    ensures Member(prior, code, conn) ==> Notice(prior, code, conn) == Notice(before, code, conn)
  {
  }

  /**
   * The disconnect loop's record of what it sent: one notice for each
   * member room outside `todo`, for no other room, each room at most once.
   */
  ghost predicate Notices(sent: seq<Outbound>, rooms: map<string, Room>, todo: set<string>, conn: string)
  {
    && (forall k :: 0 <= k < |sent| ==>
          && sent[k].Broadcast? && sent[k].to !in todo
          && Member(rooms, sent[k].to, conn) && sent[k] == Notice(rooms, sent[k].to, conn))
    && (forall i, j :: 0 <= i < j < |sent| ==> sent[i].to != sent[j].to)
    && (forall code :: code !in todo && Member(rooms, code, conn) ==> Notice(rooms, code, conn) in sent)
  }

  /** Visiting one more room of `todo` extends the record by that room's notice, if any. */
  lemma NoticesGrow(sent: seq<Outbound>, notice: seq<Outbound>, rooms: map<string, Room>, todo: set<string>, code: string, conn: string)
    requires code !in todo && Notices(sent, rooms, todo + {code}, conn)
    requires notice == if Member(rooms, code, conn) then [Notice(rooms, code, conn)] else []
    ensures Notices(sent + notice, rooms, todo, conn)
  {
    var s := sent + notice;
    forall k | 0 <= k < |s|
      ensures s[k].Broadcast? && s[k].to !in todo
      ensures Member(rooms, s[k].to, conn) && s[k] == Notice(rooms, s[k].to, conn)
    {
      if k < |sent| {
        assert s[k] == sent[k];
      } else {
        assert s[k] == notice[0];
      }
    }
    forall i, j | 0 <= i < j < |s|
      ensures s[i].to != s[j].to
    {
      if j < |sent| {
        assert s[i] == sent[i] && s[j] == sent[j];
      } else {
        assert s[j] == notice[0] && s[i] == sent[i];
        assert sent[i].to !in todo + {code};
      }
    }
    forall c | c !in todo && Member(rooms, c, conn)
      ensures Notice(rooms, c, conn) in s
    {
      if c == code {
        assert s[|sent|] == notice[0];
      } else {
        assert Notice(rooms, c, conn) in sent;
      }
    }
  }

  /** Every room of `before` outside `todo` is settled in `rooms`. */
  ghost predicate Visited(rooms: map<string, Room>, before: map<string, Room>, todo: set<string>, conn: string)
  {
    forall code :: code in before && code !in todo ==> Settled(rooms, before, code, conn)
  }

  /**
   * Settling the room under `code` in `prior`, the state before the visit,
   * and leaving the rest of `prior` alone extends the visited rooms by `code`.
   */
  lemma VisitedGrow(rooms: map<string, Room>, prior: map<string, Room>, before: map<string, Room>, todo: set<string>, code: string, conn: string)
    requires code in prior && code in before && prior[code] == before[code]
    requires Visited(prior, before, todo + {code}, conn)
    requires Settled(rooms, prior, code, conn)
    requires forall c :: c != code ==> (c in rooms <==> c in prior) && (c in rooms ==> rooms[c] == prior[c])
    ensures Visited(rooms, before, todo - {code}, conn)
  {
    SettledSame(rooms, prior, before, code, conn);
    forall c | c in before && c !in todo - {code} && c != code
      ensures Settled(rooms, before, c, conn)
    {
      SettledFrame(rooms, prior, before, c, conn);
    }
  }

  /**
   * What submit-answer does to an impostor room `r` for its player `p`:
   * while answering, a player's first answer is recorded and the phase
   * turns to voting when the answer count reaches the player count, and a
   * repeated answer is dropped without an update; while voting, every
   * submission is appended to the votes; before the game starts nothing
   * changes. Only the payload changes.
   */
  ghost predicate ImpostorStep(r: Room, p: Player, answer: string, r': Room, sent: seq<Outbound>)
  {
    var d := r.gameData;
    if d.ImpostorData? && d.phase == Answering && GaveClue(d.answers, p.id) then
      r' == r && sent == []
    else
      && sent == [Broadcast(r.code, RoomUpdate, r')]
      && r' == r.(gameData := r'.gameData)
      && match d
         case ImpostorData(Answering, answers, votes) =>
           var answers' := answers + [Clue(p.id, p.name, answer)];
           r'.gameData == ImpostorData(if |answers'| == |r.players| then Voting else Answering, answers', votes)
         case ImpostorData(Voting, answers, votes) =>
           r'.gameData == ImpostorData(Voting, answers, votes + [answer])
         case _ => r' == r
  }

  /**
   * What submit-answer does to a voting room `r`: while polling, the vote
   * is appended, and the vote that brings the count to the player count
   * ranks the votes into `results` and moves to the results phase; in any
   * other phase, or before the game starts, nothing changes. An update is
   * always sent and only the payload changes.
   */
  ghost predicate VotingStep(r: Room, answer: string, r': Room, sent: seq<Outbound>)
  {
    && sent == [Broadcast(r.code, RoomUpdate, r')]
    && r' == r.(gameData := r'.gameData)
    && match r.gameData
       case VotingData(Polling, question, votes, results) =>
         var votes' := votes + [answer];
         r'.gameData ==
           if |votes'| == |r.players| then VotingData(Results, question, votes', Some(Tally.Rank(Tally.Tally(votes'), r.players)))
           else VotingData(Polling, question, votes', results)
       case _ => r' == r
  }

  /**
   * What submit-answer does to a started trivia room `r` for the caller
   * `id`: the first answer of a player is appended, a repeated one is
   * dropped without an update. Only the payload changes.
   */
  ghost predicate TriviaStep(r: Room, id: string, answer: string, r': Room, sent: seq<Outbound>)
  {
    r.gameData.TriviaData? &&
    if MadeChoice(r.gameData.choices, id) then r' == r && sent == []
    else
      && sent == [Broadcast(r.code, RoomUpdate, r')]
      && r' == r.(gameData := TriviaData(r.gameData.currentQuestion, r.gameData.choices + [Choice(id, answer)], r.gameData.questions))
  }

  /**
   * A player's second answer while an impostor room is still answering is
   * dropped: nothing changes and nothing is sent.
   */
  lemma ImpostorAnswerOnce(r: Room, p: Player, a: string, r1: Room, s1: seq<Outbound>, b: string, r2: Room, s2: seq<Outbound>)
    requires ImpostorStep(r, p, a, r1, s1) && ImpostorStep(r1, p, b, r2, s2)
    requires r.gameData.ImpostorData? && r.gameData.phase == Answering
    requires r1.gameData.ImpostorData? && r1.gameData.phase == Answering
    ensures r2 == r1 && s2 == []
  {
    var answers := r1.gameData.answers;
    if !GaveClue(r.gameData.answers, p.id) {
      assert answers[|answers| - 1].playerId == p.id;
    }
  }

  /** A player's second answer in a started trivia room is dropped: nothing changes and nothing is sent. */
  lemma TriviaAnswerOnce(r: Room, id: string, a: string, r1: Room, s1: seq<Outbound>, b: string, r2: Room, s2: seq<Outbound>)
    requires TriviaStep(r, id, a, r1, s1) && TriviaStep(r1, id, b, r2, s2)
    ensures r2 == r1 && s2 == []
  {
    var choices := r1.gameData.choices;
    if !MadeChoice(r.gameData.choices, id) {
      assert choices[|choices| - 1].playerId == id;
    }
  }

  class RoomStore {
    /** `rooms`: room code to room. */
    var rooms: map<string, Room>

    ghost predicate Valid()
      reads this
    {
      forall code :: code in rooms ==> RoomValid(code, rooms[code])
    }

    constructor ()
      ensures Valid() && rooms == map[]
    {
      rooms := map[];
    }

    /**
     * POST /api/create. Stores a fresh room under a generated code,
     * replacing any room already stored under it. The request's `host` is
     * not used.
     */
    method Create(game: string, draws: seq<real>, now: int) returns (code: string)
      requires Valid()
      requires |draws| == Codes.CodeLength && forall i :: 0 <= i < |draws| ==> Chance.IsDraw(draws[i])
      modifies this
      ensures Valid()
      ensures |code| == Codes.CodeLength
      ensures forall i :: 0 <= i < |code| ==> code[i] == Codes.Alphabet[Chance.Pick(draws[i], |Codes.Alphabet|)]
      ensures forall i :: 0 <= i < |code| ==> code[i] in Codes.Alphabet && Codes.Unambiguous(code[i])
      ensures rooms == old(rooms)[code := Room(code, GameOf(game), Waiting, [], Blank, now)]
    {
      code := Codes.GenerateCode(draws);
      rooms := rooms[code := Room(code, GameOf(game), Waiting, [], Blank, now)];
    }

    /**
     * join-room. An unknown code is answered with an error to the caller
     * alone; a connection already in the room is ignored; otherwise a new
     * player with score 0 is appended and the room is broadcast.
     */
    method Join(conn: string, code: string, name: string) returns (sent: seq<Outbound>)
      requires Valid()
      modifies this
      ensures Valid()
      ensures code !in old(rooms) ==> rooms == old(rooms) && sent == [Reply(Error, RoomNotFound)]
      ensures Member(old(rooms), code, conn) ==> rooms == old(rooms) && sent == []
      ensures code in old(rooms) && !Member(old(rooms), code, conn) ==>
        var r := old(rooms)[code];
        var joined := r.(players := r.players + [Player(conn, name, 0, None)]);
        && rooms == old(rooms)[code := joined]
        && sent == [Broadcast(code, RoomUpdate, joined)]
    {
      if code !in rooms {
        sent := [Reply(Error, RoomNotFound)];
        return;
      }
      var room := rooms[code];
      if FindPlayer(room.players, conn).Some? {
        sent := [];
        return;
      }
      AppendPlayer(room.players, Player(conn, name, 0, None));
      room := room.(players := room.players + [Player(conn, name, 0, None)]);
      rooms := rooms[code := room];
      sent := [Broadcast(code, RoomUpdate, room)];
    }

    /**
     * start-game. Only the host may start; the status becomes playing and
     * the payload of the room's game is set up. Reading the host of a room
     * nobody has joined throws (`threw`), which leaves everything as it was.
     */
    method StartGame(conn: string, code: string, wordDraw: real, impostorDraw: real, questionDraw: real)
      returns (sent: seq<Outbound>, threw: bool)
      requires Valid()
      requires Chance.IsDraw(wordDraw) && Chance.IsDraw(impostorDraw) && Chance.IsDraw(questionDraw)
      modifies this
      ensures Valid()
      ensures threw <==> code in old(rooms) && old(rooms)[code].players == []
      ensures !IsHost(old(rooms), code, conn) ==> rooms == old(rooms) && sent == []
      ensures IsHost(old(rooms), code, conn) ==>
        var r := old(rooms)[code];
        && code in rooms
        && rooms == old(rooms)[code := rooms[code]]
        && var s := rooms[code];
        && s.code == r.code && s.game == r.game && s.createdAt == r.createdAt
        && s.status == Playing
        && sent == [Broadcast(code, GameStarted, s)]
        && (r.game != ImpostorGame ==> s.players == r.players)
        && (r.game == ImpostorGame ==>
              var secret := SecretWords[Chance.Pick(wordDraw, |SecretWords|)];
              && s.players == Impostor.WithWords(r.players, Chance.Pick(impostorDraw, |r.players|), secret)
              && Impostor.CountWord(s.players, ImpostorMarker) == 1
              && Impostor.CountWord(s.players, secret) == |s.players| - 1
              && s.gameData == ImpostorData(Answering, [], []))
        && (r.game == VotingGame ==>
              s.gameData == VotingData(Polling, Some(PollQuestions[Chance.Pick(questionDraw, |PollQuestions|)]), [], Some([])))
        && (r.game == TriviaGame ==> s.gameData == TriviaData(At(0), [], Some(TriviaQuestions)))
        && (r.game.OtherGame? ==> s.gameData == r.gameData)
    {
      sent, threw := [], false;
      if code !in rooms {
        return;
      }
      var room := rooms[code];
      if |room.players| == 0 {
        threw := true;
        return;
      }
      if room.players[0].id != conn {
        return;
      }
      room := room.(status := Playing);
      match room.game {
        case ImpostorGame =>
          SecretWordsAreNotTheMarker();
          var secret := SecretWords[Chance.Pick(wordDraw, |SecretWords|)];
          var impostorIndex := Chance.Pick(impostorDraw, |room.players|);
          var players := Impostor.AssignWords(room.players, impostorIndex, secret);
          Impostor.ImpostorCount(room.players, impostorIndex, secret);
          room := room.(players := players, gameData := ImpostorData(Answering, [], []));
        case VotingGame =>
          var question := PollQuestions[Chance.Pick(questionDraw, |PollQuestions|)];
          room := room.(gameData := VotingData(Polling, Some(question), [], Some([])));
        case TriviaGame =>
          room := room.(gameData := TriviaData(At(0), [], Some(TriviaQuestions)));
        case OtherGame(_) =>
      }
      rooms := rooms[code := room];
      sent := [Broadcast(code, GameStarted, room)];
    }

    /**
     * submit-answer. Ignored unless `conn` has a player in the room; then
     * the room's game records the answer. Reading the answers of a trivia
     * room whose payload is still blank throws (`threw`).
     */
    method SubmitAnswer(conn: string, code: string, answer: string) returns (sent: seq<Outbound>, threw: bool)
      requires Valid()
      modifies this
      ensures Valid()
      ensures !Member(old(rooms), code, conn) ==> rooms == old(rooms) && sent == [] && !threw
      ensures threw <==> Member(old(rooms), code, conn) && old(rooms)[code].game == TriviaGame && old(rooms)[code].gameData.Blank?
      ensures threw ==> rooms == old(rooms) && sent == []
      // Only the payload of the room changes, and an update is sent unless the answer was dropped.
      ensures Member(old(rooms), code, conn) && !threw ==>
        var r := old(rooms)[code];
        && code in rooms
        && rooms == old(rooms)[code := r.(gameData := rooms[code].gameData)]
        && (sent == [] || sent == [Broadcast(code, RoomUpdate, rooms[code])])
      // Impostor game, answering: one answer per player, then voting once everyone answered.
      ensures Member(old(rooms), code, conn) && old(rooms)[code].game == ImpostorGame ==>
        ImpostorStep(old(rooms)[code], FindPlayer(old(rooms)[code].players, conn).value, answer, rooms[code], sent)
      // Voting game: the vote is appended; the vote that matches the player count resolves the poll.
      ensures Member(old(rooms), code, conn) && old(rooms)[code].game == VotingGame ==>
        VotingStep(old(rooms)[code], answer, rooms[code], sent)
      // Trivia game: one answer per player.
      ensures Member(old(rooms), code, conn) && old(rooms)[code].game == TriviaGame && !threw ==>
        TriviaStep(old(rooms)[code], conn, answer, rooms[code], sent)
      // Any other game: nothing changes and an update is still sent.
      ensures Member(old(rooms), code, conn) && old(rooms)[code].game.OtherGame? ==>
        rooms == old(rooms) && sent == [Broadcast(code, RoomUpdate, old(rooms)[code])]
    {
      sent, threw := [], false;
      if code !in rooms {
        return;
      }
      var room := rooms[code];
      var found := FindPlayer(room.players, conn);
      if found.None? {
        return;
      }
      var player := found.value;
      match room.game {
        case ImpostorGame =>
          sent := SubmitImpostor(code, player, answer);
        case VotingGame =>
          sent := SubmitVote(code, answer);
        case TriviaGame =>
          sent, threw := SubmitTrivia(code, player, answer);
        case OtherGame(_) =>
          sent := [Broadcast(code, RoomUpdate, room)];
      }
    }

    /** submit-answer in an impostor room, for the player `p` of the caller. */
    method SubmitImpostor(code: string, p: Player, answer: string) returns (sent: seq<Outbound>)
      requires Valid() && code in rooms && rooms[code].game == ImpostorGame && p in rooms[code].players
      modifies this
      ensures Valid()
      ensures code in rooms && rooms == old(rooms)[code := rooms[code]]
      ensures ImpostorStep(old(rooms)[code], p, answer, rooms[code], sent)
    {
      var room := rooms[code];
      match room.gameData {
        case ImpostorData(phase, answers, votes) =>
          if phase == Answering {
            if GaveClue(answers, p.id) {
              sent := [];
              return;
            }
            var answers' := answers + [Clue(p.id, p.name, answer)];
            var phase' := if |answers'| == |room.players| then Voting else Answering;
            room := room.(gameData := ImpostorData(phase', answers', votes));
          } else {
            room := room.(gameData := ImpostorData(phase, answers, votes + [answer]));
          }
        case _ =>
      }
      rooms := rooms[code := room];
      sent := [Broadcast(code, RoomUpdate, room)];
    }

    /** submit-answer in a voting room. */
    method SubmitVote(code: string, answer: string) returns (sent: seq<Outbound>)
      requires Valid() && code in rooms && rooms[code].game == VotingGame
      modifies this
      ensures Valid()
      ensures code in rooms && rooms == old(rooms)[code := rooms[code]]
      ensures VotingStep(old(rooms)[code], answer, rooms[code], sent)
    {
      var room := rooms[code];
      match room.gameData {
        case VotingData(poll, question, votes, results) =>
          if poll == Polling {
            var votes' := votes + [answer];
            if |votes'| == |room.players| {
              var counts := Tally.CountVotes(votes');
              var ranking := Tally.Rank(counts, room.players);
              assert RankedByVotes(ranking);
              room := room.(gameData := VotingData(Results, question, votes', Some(ranking)));
              assert RoomValid(code, room);
            } else {
              room := room.(gameData := VotingData(poll, question, votes', results));
            }
          }
        case _ =>
      }
      rooms := rooms[code := room];
      sent := [Broadcast(code, RoomUpdate, room)];
    }

    /** submit-answer in a trivia room, for the player `p` of the caller. */
    method SubmitTrivia(code: string, p: Player, answer: string) returns (sent: seq<Outbound>, threw: bool)
      requires Valid() && code in rooms && rooms[code].game == TriviaGame
      modifies this
      ensures Valid()
      ensures threw <==> old(rooms)[code].gameData.Blank?
      ensures threw ==> rooms == old(rooms) && sent == []
      ensures !threw ==> code in rooms && rooms == old(rooms)[code := rooms[code]]
      ensures !threw ==> TriviaStep(old(rooms)[code], p.id, answer, rooms[code], sent)
    {
      var room := rooms[code];
      match room.gameData {
        case TriviaData(current, choices, questions) =>
          if MadeChoice(choices, p.id) {
            sent, threw := [], false;
            return;
          }
          room := room.(gameData := TriviaData(current, choices + [Choice(p.id, answer)], questions));
          rooms := rooms[code := room];
          sent, threw := [Broadcast(code, RoomUpdate, room)], false;
        case _ =>
          sent, threw := [], true;
      }
    }

    /**
     * next-round. Any connection may call it. Trivia moves to the next
     * question and forgets the answers; voting reopens the poll on the same
     * question; other games only send an update.
     */
    method NextRound(conn: string, code: string) returns (sent: seq<Outbound>)
      requires Valid()
      modifies this
      ensures Valid()
      ensures code !in old(rooms) ==> rooms == old(rooms) && sent == []
      ensures code in old(rooms) ==>
        var r := old(rooms)[code];
        && code in rooms
        && rooms == old(rooms)[code := r.(gameData := rooms[code].gameData)]
        && sent == [Broadcast(code, RoomUpdate, rooms[code])]
        && var d := rooms[code].gameData;
        && (r.game == TriviaGame && r.gameData.TriviaData? ==>
              && d.TriviaData? && d.choices == [] && d.questions == r.gameData.questions
              && (r.gameData.currentQuestion.At? ==> d.currentQuestion == At(r.gameData.currentQuestion.n + 1))
              && (r.gameData.currentQuestion.NotANumber? ==> d.currentQuestion == NotANumber))
        && (r.game == TriviaGame && r.gameData.Blank? ==> d == TriviaData(NotANumber, [], None))
        && (r.game == VotingGame && r.gameData.VotingData? ==> d == VotingData(Polling, r.gameData.question, [], r.gameData.results))
        && (r.game == VotingGame && r.gameData.Blank? ==> d == VotingData(Polling, None, [], None))
        && (r.game == ImpostorGame || r.game.OtherGame? ==> d == r.gameData)
    {
      if code !in rooms {
        sent := [];
        return;
      }
      var room := rooms[code];
      match room.game {
        case TriviaGame =>
          match room.gameData {
            case TriviaData(current, _, questions) =>
              room := room.(gameData := TriviaData(current.Incremented(), [], questions));
            case _ =>
              room := room.(gameData := TriviaData(NotANumber, [], None));
          }
        case VotingGame =>
          match room.gameData {
            case VotingData(_, question, _, results) =>
              room := room.(gameData := VotingData(Polling, question, [], results));
            case _ =>
              room := room.(gameData := VotingData(Polling, None, [], None));
          }
        case _ =>
      }
      rooms := rooms[code := room];
      sent := [Broadcast(code, RoomUpdate, room)];
    }

    /**
     * One pass of the disconnect loop, for the room under `code`: splice out
     * the player of `conn` if there is one, broadcast the room, and delete it
     * if it has no players left. No other room is touched.
     */
    method Leave(conn: string, code: string) returns (sent: seq<Outbound>)
      requires Valid() && code in rooms
      modifies this
      ensures Valid()
      ensures Settled(rooms, old(rooms), code, conn)
      ensures forall c :: c != code ==> (c in rooms <==> c in old(rooms)) && (c in rooms ==> rooms[c] == old(rooms)[c])
      ensures sent == if Member(old(rooms), code, conn) then [Notice(old(rooms), code, conn)] else []
    {
      sent := [];
      var room := rooms[code];
      var index := FindIndex(room.players, conn);
      if index != -1 {
        RemovePlayer(room.players, conn);
        room := room.(players := RemoveAt(room.players, index));
        sent := [Broadcast(code, RoomUpdate, room)];
        if |room.players| == 0 {
          rooms := rooms - {code};
        } else {
          rooms := rooms[code := room];
        }
      }
    }

    /**
     * disconnect. Visits every room; one holding a player of `conn` loses
     * that player, is broadcast, and is deleted once it has no players left.
     * The order of visits is not fixed.
     */
    method Disconnect(conn: string) returns (sent: seq<Outbound>)
      requires Valid()
      modifies this
      ensures Valid()
      ensures forall code :: code in rooms ==> code in old(rooms)
      ensures forall code :: code in old(rooms) ==> Settled(rooms, old(rooms), code, conn)
      ensures forall k :: 0 <= k < |sent| ==>
        sent[k].Broadcast? && Member(old(rooms), sent[k].to, conn) && sent[k] == Notice(old(rooms), sent[k].to, conn)
      ensures forall code :: Member(old(rooms), code, conn) ==> Notice(old(rooms), code, conn) in sent
      ensures forall i, j :: 0 <= i < j < |sent| ==> sent[i].to != sent[j].to
    {
      sent := [];
      var todo := rooms.Keys;
      while todo != {}
        invariant todo <= old(rooms).Keys
        invariant Valid()
        invariant forall code :: code in rooms ==> code in old(rooms)
        invariant forall code :: code in todo ==> code in rooms && rooms[code] == old(rooms)[code]
        invariant Visited(rooms, old(rooms), todo, conn)
        invariant Notices(sent, old(rooms), todo, conn)
        decreases todo
      {
        var code :| code in todo;
        ghost var prior := rooms;
        var notice := Leave(conn, code);
        VisitedGrow(rooms, prior, old(rooms), todo - {code}, code, conn);
        SettledSame(rooms, prior, old(rooms), code, conn);
        todo := todo - {code};
        NoticesGrow(sent, notice, old(rooms), todo, code, conn);
        sent := sent + notice;
      }
    }
  }
}
