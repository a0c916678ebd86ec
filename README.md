# PlayLAN room store in Dafny

PlayLAN is a party-game server. A host creates a room over HTTP and
receives a six-character code. Players join that room over socket.io and
play one of three games:

- **impostor**: everyone gets a secret word except one player, who gets `IMPOSTOR`; players give clues, then vote;
- **voting**: players vote for one another on a question, and the votes are ranked;
- **trivia**: players answer fixed multiple-choice questions.

All state lives in one process-wide object, `rooms`, which maps a room code to its room.

This project models that store and the handlers that change it:

- room codes (`generateCode`), room creation (`POST /api/create`);
- the socket events `join-room`, `start-game`, `submit-answer`, `next-round` and `disconnect`.

The store is the class `Store.RoomStore`. Its field `rooms: map<string, Room>` is reassigned by one method per handler. Each method:

- takes the acting connection id and the event's payload;
- returns the messages the handler sends, since every `io.to(code).emit(...)` carries a snapshot of the room;
- keeps the store invariant `Valid()`, whose parts are:
  - each room is stored under its own code;
  - an unknown game never carries one of the three known names;
  - the player ids in a room are unique;
  - the payload has the shape of the room's game;
  - each player has at most one answer;
  - voting results are ordered by count.

Modules:

- `Chance`: `Math.floor(Math.random() * n)`, with the draw `0 <= r < 1` passed in.
- `Codes`: the code alphabet and `generateCode`.
- `Rooms`: rooms, players, payloads and outbound messages, lookup and removal in player lists, and the invariant of a stored room.
- `Impostor`: dealing the words.
- `Tally`: counting the votes and ranking them.
- `Store`: the store and its handlers.
- `Scenarios`: short event sequences checked against the handlers' contracts alone.
- `Seqs`: facts about duplicate-free sequences.

Points where the code behaves differently from what one might expect, which the model follows:

- The code alphabet has 32 characters: `ABCDEFGHJKLMNPQRSTUVWXYZ23456789`, the 26 capitals and 10 digits without I, O, 0 and 1.
- A freshly created room with no players is kept until it is overwritten. Only disconnect deletes rooms, and only those it empties.
- The `host` field of the create request is read and never used.
- `start-game` on a room nobody has joined throws, because `players[0]` is undefined. Its result `threw` is true and the store is unchanged.
- `submit-answer` in a trivia room whose payload is still blank (`{}`, since neither start-game nor next-round has run) also throws, at `{}.answers.find`. The model treats it the same way. After a next-round the payload `{currentQuestion: NaN, answers: []}` no longer throws.
- `room.game` is compared with the names 'impostor', 'voting' and 'trivia'. `Rooms.GameOf` reads the request's name into a `Game`, so `OtherGame` only ever holds a name the server compares with nothing.

## Model

Rows name the members whose contracts carry a promise. The functions those contracts speak of have no row of their own; each is covered by the rows of the lemmas and methods about it:

- `Tally.Bump` and `Tally.Tally`, the counting of server.js:176-177: `Tally.BumpCounts`, `Tally.TallyCounts`, `Tally.CountVotes`;
- `Tally.Rank`, the ranking chain of server.js:179-184: `Tally.RankTally` and the lemmas it uses;
- `Rooms.RemoveAt`, the splice of server.js:228: `Rooms.RemovePlayer`;
- `Impostor.WithWords`, the deal of server.js:91-93: `Impostor.ImpostorCount` and `Impostor.AssignWords`;
- `Store.ImpostorStep`, `Store.VotingStep` and `Store.TriviaStep`, the three branches of submit-answer: `Store.RoomStore.SubmitAnswer` and its three helpers, `Store.ImpostorAnswerOnce`, `Store.TriviaAnswerOnce`.

| member | source | states |
|---|---|---|
| Chance.ScaledDraw | server.js:22 | a draw scaled by a positive `n` lies in `[0, n)` |
| Chance.Pick | server.js:22 | `Math.floor(r * n)` is an index below `n`, and its floor bounds: `k <= r*n < k+1` |
| Codes.AlphabetIsTypeable | server.js:19 | the alphabet has 32 characters, each an upper-case letter other than I/O or a digit 2-9 |
| Codes.GenerateCode | server.js:18-25 | the code has length 6; character i is the alphabet entry that draw i picks; every character comes from the alphabet and is none of I, O, 0, 1 |
| Rooms.GameOf | server.js:31-36 | the request's game name is read as the impostor, voting or trivia game exactly when it is that name; any other name is kept as an unknown game |
| Rooms.GameNames | server.js:86-119 | reading a name as a game and giving back its name loses nothing, and every stored game is read back from its own name |
| Rooms.SecretWordsAreNotTheMarker | server.js:87-92 | five secret words, none equal to `IMPOSTOR` |
| Rooms.FindIndex | server.js:226 | `findIndex`: -1 exactly when no player has the id, otherwise the first position holding it |
| Rooms.FindPlayer | server.js:63 | `find`: absent exactly when no player has the id, otherwise the first player of the list carrying that id |
| Rooms.RemovePlayer | server.js:226-228 | splicing out a connection's player: the list gets one shorter, the other players keep their order, the id is gone and ids stay unique |
| Rooms.AppendPlayer | server.js:63-69 | appending a player with a new id keeps ids unique and adds that id at the end |
| Impostor.ImpostorCount | server.js:86-93 | with the impostor index in range, exactly one player holds `IMPOSTOR` and all others hold the secret |
| Impostor.AssignWords | server.js:91-93 | the `forEach` gives the marker to the player at the index and the secret to every other player; ids, names and scores stay as they were |
| Tally.BumpCounts | server.js:177 | one increment adds one vote for its key and nothing else; keys stay distinct |
| Tally.TallyCounts | server.js:176-177 | the counts have one distinct key per vote value; each count is that value's number of votes; the counts sum to the number of votes |
| Tally.CountVotes | server.js:176-177 | the loop builds the counts object, with each property of `Tally.TallyCounts` |
| Tally.Resolve | server.js:179-183 | each count is paired, position by position, with the player of that id (absent if none); the vote sum is preserved |
| Tally.Insert | server.js:184 | inserting into an ordered list keeps it ordered by non-increasing count and adds exactly that entry |
| Tally.SortByVotes | server.js:184 | the sort returns a permutation ordered by non-increasing count |
| Tally.RankPermutes | server.js:179-184 | the results are a rearrangement (equal multisets) of the resolved counts, with one entry per count |
| Tally.TallySize | server.js:176-179 | one entry per distinct vote value |
| Tally.RankCovers | server.js:176-184 | every voted value has its entry in the results, with its player and its number of votes |
| Tally.RankEntries | server.js:176-184 | every entry of the results has a positive count, and one with a player carries that player's number of votes |
| Tally.TallyEntries | server.js:176-179 | every entry's key was voted, and its count is that key's number of votes |
| Tally.RankTally | server.js:176-184 | results are ordered by count, are a rearrangement of the counts paired with their players, and sum to the number of votes; one entry per distinct vote value, with that value's player (absent if none) and its count; every count is positive |
| Store.ImpostorAnswerOnce | server.js:152-159 | a player's second answer while the impostor room is answering changes nothing and sends nothing |
| Store.TriviaAnswerOnce | server.js:193-198 | a player's second trivia answer changes nothing and sends nothing |
| Store.RoomStore.constructor | server.js:13 | the store starts empty and valid |
| Store.RoomStore.Create | server.js:30-44 | the code has length 6 and character i is the alphabet entry draw i picks, so every character is unambiguous; the store maps it to a waiting room of the game `Rooms.GameOf` reads from the request's name, with no players, a blank payload and the given time, replacing any room there; nothing else changes |
| Store.RoomStore.Join | server.js:56-73 | unknown code: an error reply to the caller and no change; a connection already in the room: no change and nothing sent; otherwise exactly one player `{id, name, score 0}` is appended and the room is broadcast; ids stay unique |
| Store.RoomStore.StartGame | server.js:76-140 | an absent room or a caller that is not the first player: no change; an empty room throws; for the host, status becomes playing and impostor, voting or trivia gets its payload (for impostor, one impostor and everyone else on the drawn secret); game-started is broadcast |
| Store.RoomStore.SubmitAnswer | server.js:143-202 | a caller with no player in the room changes nothing; otherwise only the room's payload changes, as `ImpostorStep`, `VotingStep` or `TriviaStep` describes, with an update unless the answer was dropped; a blank trivia payload throws |
| Store.RoomStore.SubmitImpostor | server.js:151-168 | answering: the first answer per player is recorded, a repeat is dropped, and the phase becomes voting exactly when the answer count reaches the player count; voting: every submission is appended to the votes |
| Store.RoomStore.SubmitVote | server.js:171-189 | polling: the vote is appended; the vote that brings the count to the player count stores the ranked tally as results and moves to results; otherwise the phase stays voting |
| Store.RoomStore.SubmitTrivia | server.js:192-199 | the first answer per player is appended, a repeat is dropped without an update, a blank payload throws |
| Store.RoomStore.NextRound | server.js:205-220 | absent room: no change; trivia: question index plus one, answers emptied; voting: phase voting, votes emptied, question kept; impostor and other games: payload unchanged; any caller; an update is always sent |
| Store.RoomStore.Leave | server.js:225-231 | one pass over a room: a room holding the connection loses exactly that player, is broadcast, and is deleted if and only if it is now empty; no other room changes |
| Store.RoomStore.Disconnect | server.js:223-233 | every room that held the connection loses exactly that player (others keep their order) and is deleted if and only if it became empty; other rooms stay untouched; one update per affected room, none for the others |
| Scenarios.TriviaRound | server.js:56-220 | two players join a trivia room, answer and move on: question 1, no answers, still playing |
| Scenarios.JoinTwice | server.js:63 | joining twice from one connection leaves one player and the second join sends nothing |
| Scenarios.HostOnly | server.js:80-83 | a start by the second player leaves the room waiting; the first player's start makes it playing |
| Scenarios.ImpostorDeal | server.js:86-99 | three players start an impostor game: exactly one impostor, answering phase |
| Scenarios.TwoVotesForBob | server.js:176-177 | two votes for the same id count to one entry with two votes |
| Scenarios.BobWins | server.js:179-184 | those votes rank that player first with two votes |
| Scenarios.VotingRound | server.js:171-189 | two players both vote for Bob: the poll moves to results with Bob first with two votes |
| Scenarios.LastPlayerLeaves | server.js:223-233 | the last player's disconnect deletes the room and sends one update showing it empty |

## Left out

- Express, HTTP and startup: middleware, the `/room/:code` page route and `server.listen` (server.js:1-11, 46-48, 239-242) are plumbing and not modelled.
- socket.io delivery: `socket.join` and the transport behind `io.to(code).emit` are out of scope. A handler returns its messages as `Outbound` values instead.
- Randomness: `Math.random()` becomes a real draw `0 <= r < 1` passed by the caller, and `Pick` takes its floor exactly. The rounding of the floating-point product is not modelled.
- Time: `Date.now()` becomes the parameter `now`.
- Concurrency: handlers run one at a time, as on Node's event loop.
- Crashes: the two handler paths on stored rooms that throw a TypeError are reported as `threw` with the store unchanged. This is exact for the store, since neither path has changed anything when it throws. What the process does after the exception is not modelled.
- Payload types: room codes, game names, player names and answers are strings. JavaScript's coercion of non-string payloads into object keys is out of scope. Room codes that name properties inherited by every object, such as `constructor` or `__proto__`, are treated as absent. In the source, `rooms[code]` is then an inherited value whose `players` is undefined, so join-room (server.js:63), start-game (server.js:81) and submit-answer (server.js:147) throw a TypeError there; the model sends an error reply (join-room) or does nothing.
- `gameData.phase` of trivia is always `'question'` and nothing reads it, so it is not stored. A trivia payload created by `next-round` before `start-game` has no questions (`questions == None`) and a NaN counter.
- Scores: `score` is set to 0 on join and never updated, and the model does the same.
- Tally.Tally: the counts keep the order in which values were first voted. JavaScript's `Object.entries` lists integer-like keys (such as "12") first, in ascending numeric order, and only then the other keys in insertion order. The model does not do that reordering. The sort is stable, in JavaScript since ES2019 and in `Tally.SortByVotes`, so tied entries keep the entries order. The model's tie order therefore differs from the source only when votes are integer-like strings. For that reason only what `Tally.RankTally` states is claimed about `results`: the order by count, the entries and their counts, not the order among ties.
- Store.RoomStore.SubmitVote: the tally claims hold only for votes that are not names of `Object.prototype` properties. The source counts with a plain object `{}`. For a vote such as `__proto__`, `constructor` or `toString`, `counts[v] || 0` starts from the inherited value, not from 0. The "count" then becomes a string, and for `__proto__` the assignment is ignored, so the entry is missing from `results`. The model counts every vote value as an ordinary key. The same holds for `Tally.TallyCounts`, `Tally.CountVotes` and `Tally.RankTally`.
- Store.RoomStore.Disconnect: the order in which `for...in` visits rooms is left open. The contract fixes which updates are sent, not their order.

