/**
 * The state the server keeps per room (server.js, the objects stored in
 * `rooms`), the messages it sends, and facts about player lists.
 */
module Rooms {
  import opened Seqs

  datatype Option<T> = None | Some(value: T)

  /**
   * The `game` a room was created with. The server compares it with the
   * three names it knows and accepts any other value, kept as `OtherGame`.
   */
  datatype Game = ImpostorGame | VotingGame | TriviaGame | OtherGame(tag: string)

  const KnownGames: seq<string> := ["impostor", "voting", "trivia"]

  /** The name a game is compared with: 'impostor', 'voting', 'trivia', or the raw value. */
  function Name(g: Game): string
  {
    match g
    case ImpostorGame => "impostor"
    case VotingGame => "voting"
    case TriviaGame => "trivia"
    case OtherGame(tag) => tag
  }

  /** `OtherGame` carries only names the server does not compare with. */
  predicate Tagged(g: Game)
  {
    g.OtherGame? ==> g.tag !in KnownGames
  }

  /** The request's `game` as the handlers see it through `room.game === '...'`. */
  function GameOf(name: string): (g: Game)
    ensures g == ImpostorGame <==> name == "impostor"
    ensures g == VotingGame <==> name == "voting"
    ensures g == TriviaGame <==> name == "trivia"
    ensures g.OtherGame? ==> g.tag == name
    ensures Tagged(g)
  {
    if name == "impostor" then ImpostorGame
    else if name == "voting" then VotingGame
    else if name == "trivia" then TriviaGame
    else OtherGame(name)
  }

  /** Reading a name as a game loses nothing, and every tagged game is read back from its name. */
  lemma GameNames(name: string, g: Game)
    ensures Name(GameOf(name)) == name
    ensures Tagged(g) ==> GameOf(Name(g)) == g
  {
    if g.OtherGame? && Tagged(g) {
      assert g.tag != KnownGames[0] && g.tag != KnownGames[1] && g.tag != KnownGames[2];
    }
  }

  datatype Status = Waiting | Playing

  /** `word` is absent until an impostor game starts. */
  datatype Player = Player(id: string, name: string, score: int, word: Option<string>)

  /** The impostor game's `phase`: 'answering' or 'voting'. */
  datatype ImpostorPhase = Answering | Voting

  /** The voting game's `phase`: 'voting' (here `Polling`) or 'results'. */
  datatype PollPhase = Polling | Results

  /** One entry of the impostor game's `answers`. */
  datatype Clue = Clue(playerId: string, playerName: string, answer: string)

  /** One entry of the trivia game's `answers`. */
  datatype Choice = Choice(playerId: string, answerIndex: string)

  /** One entry of the voting game's `results`; `player` is absent when no player has the voted id. */
  datatype Ranked = Ranked(player: Option<Player>, votes: nat)

  datatype TriviaQuestion = TriviaQuestion(question: string, options: seq<string>, correct: nat)

  /** The trivia game's `currentQuestion`; `undefined++` in JavaScript gives NaN, and NaN stays NaN. */
  datatype Counter = At(n: nat) | NotANumber {
    function Incremented(): Counter
    {
      match this
      case At(n) => At(n + 1)
      case NotANumber => NotANumber
    }
  }

  /**
   * A room's `gameData`, one case per shape the server gives it.
   * - `Blank`: `{}`, from creation until some handler fills it in.
   * - `ImpostorData`: fields phase, answers, votes.
   * - `VotingData`: fields phase, question, votes, results. Both `question` and
   *   `results` are absent when next-round ran before start-game.
   * - `TriviaData`: fields currentQuestion, answers, and phase 'question' with
   *   the question list. `questions` is `None` when next-round ran before
   *   start-game, which sets only currentQuestion and answers; the phase is
   *   then absent too.
   */
  datatype GameData =
    | Blank
    | ImpostorData(phase: ImpostorPhase, answers: seq<Clue>, votes: seq<string>)
    | VotingData(poll: PollPhase, question: Option<string>, votes: seq<string>, results: Option<seq<Ranked>>)
    | TriviaData(currentQuestion: Counter, choices: seq<Choice>, questions: Option<seq<TriviaQuestion>>)

  datatype Room = Room(code: string, game: Game, status: Status, players: seq<Player>, gameData: GameData, createdAt: int)

  datatype EventName = RoomUpdate | GameStarted | Error

  /**
   * What a handler sends: a snapshot of a room to every connection in that
   * room's group, or a message to the calling connection alone.
   */
  datatype Outbound = Broadcast(to: string, event: EventName, snapshot: Room) | Reply(event: EventName, message: string)

  const RoomNotFound: string := "Sala no encontrada"

  /** The word the impostor is given instead of the secret. */
  const ImpostorMarker: string := "IMPOSTOR"

  const SecretWords: seq<string> := ["PERRO", "PLAYA", "COCHE", "PIZZA", "MONTAÑA"]

  const PollQuestions: seq<string> := [
    "¿Quién llega siempre tarde?",
    "¿Quién es más probable que gane la lotería?",
    "¿Quién se duerme en clase?"
  ]

  const TriviaQuestions: seq<TriviaQuestion> := [
    TriviaQuestion("¿Capital de Francia?", ["Roma", "Madrid", "París", "Berlín"], 2),
    TriviaQuestion("¿Cuántos planetas hay?", ["7", "8", "9", "10"], 1)
  ]

  /** No secret word is the impostor's marker, so the impostor can always be told apart. */
  lemma SecretWordsAreNotTheMarker()
    ensures |SecretWords| == 5
    ensures forall i :: 0 <= i < |SecretWords| ==> SecretWords[i] != ImpostorMarker
  {
  }

  // ---------------------------------------------------------------------
  // Player lists

  function Ids(ps: seq<Player>): seq<string>
  {
    seq(|ps|, i requires 0 <= i < |ps| => ps[i].id)
  }

  predicate HasPlayer(ps: seq<Player>, id: string)
  {
    id in Ids(ps)
  }

  ghost predicate UniqueIds(ps: seq<Player>)
  {
    Distinct(Ids(ps))
  }

  /** `players.findIndex(p => p.id === id)`. */
  function FindIndex(ps: seq<Player>, id: string): (k: int)
    ensures -1 <= k < |ps|
    ensures k == -1 <==> !HasPlayer(ps, id)
    ensures 0 <= k ==> ps[k].id == id && forall j :: 0 <= j < k ==> ps[j].id != id
  {
    if ps == [] then -1
    else if ps[0].id == id then assert Ids(ps)[0] == id; 0
    else
      var k := FindIndex(ps[1..], id);
      assert Ids(ps) == [ps[0].id] + Ids(ps[1..]);
      if k == -1 then -1 else k + 1
  }

  /** `players.find(p => p.id === id)`: the first player with that id, if any. */
  function FindPlayer(ps: seq<Player>, id: string): (r: Option<Player>)
    ensures r.None? <==> !HasPlayer(ps, id)
    ensures r.Some? ==> r.value.id == id && r.value in ps
    ensures r.Some? ==> exists k :: 0 <= k < |ps| && ps[k] == r.value && forall j :: 0 <= j < k ==> ps[j].id != id
  {
    var k := FindIndex(ps, id);
    if k == -1 then None else Some(ps[k])
  }

  /** `players.splice(k, 1)`. */
  function RemoveAt(ps: seq<Player>, k: nat): seq<Player>
    requires k < |ps|
  {
    ps[..k] + ps[k + 1..]
  }

  /**
   * Removing the player a connection owns from a list of unique ids removes
   * exactly that player: the id is gone, the list is one shorter, the other
   * players keep their order and the ids stay unique.
   */
  lemma RemovePlayer(ps: seq<Player>, id: string)
    requires UniqueIds(ps) && HasPlayer(ps, id)
    ensures var k := FindIndex(ps, id);
      var rest := RemoveAt(ps, k);
      && |rest| == |ps| - 1
      && ps == rest[..k] + [ps[k]] + rest[k..]
      && !HasPlayer(rest, id)
      && UniqueIds(rest)
  {
    var k := FindIndex(ps, id);
    var rest := RemoveAt(ps, k);
    assert Ids(rest) == Ids(ps)[..k] + Ids(ps)[k + 1..];
    DistinctRemove(Ids(ps), k);
    assert Ids(ps)[k] == id;
    assert rest[..k] == ps[..k] && rest[k..] == ps[k + 1..];
    assert ps == ps[..k] + [ps[k]] + ps[k + 1..];
  }

  /** Appending a player whose id is new keeps the ids unique. */
  lemma AppendPlayer(ps: seq<Player>, p: Player)
    requires UniqueIds(ps) && !HasPlayer(ps, p.id)
    ensures UniqueIds(ps + [p])
    ensures Ids(ps + [p]) == Ids(ps) + [p.id]
  {
    assert Ids(ps + [p]) == Ids(ps) + [p.id];
  }

  // ---------------------------------------------------------------------
  // Answers and results

  /** `answers.find(a => a.playerId === id)` finds something (impostor game). */
  predicate GaveClue(answers: seq<Clue>, id: string)
  {
    exists i | 0 <= i < |answers| :: answers[i].playerId == id
  }

  /** `answers.find(a => a.playerId === id)` finds something (trivia game). */
  predicate MadeChoice(choices: seq<Choice>, id: string)
  {
    exists i | 0 <= i < |choices| :: choices[i].playerId == id
  }

  ghost predicate OneCluePerPlayer(answers: seq<Clue>)
  {
    forall i, j :: 0 <= i < j < |answers| ==> answers[i].playerId != answers[j].playerId
  }

  ghost predicate OneChoicePerPlayer(choices: seq<Choice>)
  {
    forall i, j :: 0 <= i < j < |choices| ==> choices[i].playerId != choices[j].playerId
  }

  /** `results` is ordered by non-increasing vote count. */
  ghost predicate RankedByVotes(rs: seq<Ranked>)
  {
    forall i, j :: 0 <= i < j < |rs| ==> rs[i].votes >= rs[j].votes
  }

  // ---------------------------------------------------------------------
  // The invariant every stored room keeps

  /** The payload has the shape of the room's own game, or is still blank. */
  ghost predicate Fits(game: Game, d: GameData)
  {
    match d
    case Blank => true
    case ImpostorData(_, _, _) => game == ImpostorGame
    case VotingData(_, _, _, _) => game == VotingGame
    case TriviaData(_, _, _) => game == TriviaGame
  }

  ghost predicate PayloadValid(d: GameData)
  {
    match d
    case Blank => true
    case ImpostorData(_, answers, _) => OneCluePerPlayer(answers)
    case VotingData(_, _, _, results) => results.Some? ==> RankedByVotes(results.value)
    case TriviaData(_, choices, _) => OneChoicePerPlayer(choices)
  }

  /** What holds of the room stored under `code`. */
  ghost predicate RoomValid(code: string, r: Room)
  {
    && r.code == code
    && Tagged(r.game)
    && UniqueIds(r.players)
    && Fits(r.game, r.gameData)
    && PayloadValid(r.gameData)
  }
}
