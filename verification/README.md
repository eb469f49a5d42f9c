# Tic-tac-toe room server: a Dafny model

The server in `index.js` keeps a table `rooms` from room id to a room record. A record holds:
- the ids of its players (at most two);
- a 9-cell board;
- whose turn it is (`XTurn`);
- the win counters `XWins` and `OWins`.

The socket handlers work on this table:
- `createRoom` stores a fresh record;
- `joinRoom` adds a second player and, two seconds later, announces the start;
- `playerMoved` finds the mover's room by scanning the table, writes the server-chosen mark into the cell and flips the turn. Half a second later it evaluates the board: a win is announced, scored and the board reset; a full board is announced as a draw and reset; otherwise nothing happens.

The project has four modules:
- `Wrappers` (`wrappers.dfy`): `Option`, the model's `null`.
- `Board` (`board.dfy`): the cell type, the eight winning patterns, `CheckWin` and `CheckGameOver` as pure functions, and lemmas about them.
- `RoomSpec` (`room_spec.dfy`): a room record as a value (`RoomState`), and what each handler does to it as a pure function:
  - `NewRoom`, `Joined`, `Moved`, `Reset` and `Evaluated`;
  - `FirstHolder`, the search of `getRoomIdByPlayerId`;
  - lemmas about runs of moves and evaluations, and concrete games.
- `Server` (`server.dfy`): the mutable state.
  - `Room` is a class with the record's fields; the board is an `array`.
  - `RoomStore` holds the `rooms` map and the insertion order of its keys, which is the order a `for .. in` loop visits them.
  - The handlers are methods that update these objects in place and return the messages they send. `socket.emit` becomes `ToSender` and `io.to(id).emit` becomes `ToRoom(id)`.
  - Each method is proved against the `RoomSpec` function for its handler. Its `modifies` clause names exactly the records it may touch, so every other room is unchanged.

Room ids are inputs. The two timer callbacks are the methods `StartGame` and `EvaluateOutcome`, which a caller invokes when the timer fires.

## Model

| member | source | states |
|---|---|---|
| Board.FirstLine | index.js:130-139 | Returns the first complete pattern at or after the start, or 8 when none is. Every pattern scanned before it is incomplete. |
| Board.CheckWin | index.js:118-141 | No mark exactly when no pattern has three equal non-null cells. Otherwise returns the mark of the first such pattern in table order (rows, then columns, then diagonals). |
| Board.CheckGameOver | index.js:144-152 | True exactly when some pattern is complete or no cell is null. |
| Board.WinnerOwnsLine | index.js:118-141 | A reported winner owns a complete line. With no winner, neither X nor O has a line. |
| Board.SoleOwnerWins | index.js:118-141 | When only mark m has a complete line, the winner reported is m. |
| Board.LineBoardWins | index.js:118-152 | Any one of the eight lines filled with X (or O) on an otherwise empty board is X's (O's) win and ends the game. |
| Board.EmptyBoardOngoing | index.js:118-152 | On an all-null board there is no winner and the game is not over. |
| Board.GameOverWithoutWinnerIsDraw | index.js:144-152 | A finished game with no winner has a full board. |
| RoomSpec.NewRoom | index.js:31-37 | A new record has one seat free and contains its creator. All 9 cells are null, X is to move, nobody has scored, and the game is ongoing. |
| RoomSpec.Joined | index.js:44-45 | The joiner is appended at the end of the players, which stay at most two. Board, turn and counters are untouched. |
| RoomSpec.TurnMark | index.js:70 | The mark is never null, and it is X exactly when it is X's turn. |
| RoomSpec.Moved | index.js:70-72 | The cell gets X when it was X's turn and O otherwise, whatever it held. The other 8 cells, the players and the counters are untouched, and the turn flips. |
| RoomSpec.Reset | index.js:155-164 | The board becomes all null and X is to move. Only the winner's counter goes up, by one; a null winner scores nobody. The players are untouched. |
| RoomSpec.Evaluated | index.js:76-98 | A complete line resets the board and adds exactly one win. The win goes to the mark `checkWin` reports, which is the mark that owns the line when only one does. A full board without a line resets with no score. Anything else leaves the room as it was. |
| RoomSpec.Alternation | index.js:70-72 | Along any run of moves, move k gets the starting mark when k is even and the other mark when it is odd. The turn after the run depends on its length's parity. |
| RoomSpec.FreshRoomStartsWithX | index.js:70-72 | In a new room the moves are marked X, O, X, O, ... |
| RoomSpec.RunKeepsRoom | index.js:65-98 | Any sequence of moves and evaluations keeps the 9-cell board, the at-most-2 players and the players themselves. The counters never decrease. |
| RoomSpec.MovesDoNotScore | index.js:65-74 | Moves alone never change the counters or the players. |
| RoomSpec.RowWinGame | index.js:65-74 | Five alternating moves give X the top row and O two cells of the middle row, with O to move. |
| RoomSpec.RowWinScoredForX | index.js:76-98 | X filling the top row while O plays the middle row is X's win. The evaluation resets the board and leaves the score 1 to 0. |
| RoomSpec.DrawnGamePlay | index.js:65-74 | Nine alternating moves fill the board without a line. |
| RoomSpec.BothLinesGame | index.js:65-74 | A sixth move landing before the deferred check leaves X owning the top row and O owning the middle row. |
| RoomSpec.FirstPatternScoresWhenBothOwnLines | index.js:76-98 | On that board both marks own a line. `checkWin` reports X, whose pattern comes first, and the evaluation scores 1 to 0 for X only. |
| RoomSpec.DrawnBoardHasNoLine | index.js:118-152 | That full board has no winner, yet the game is over. |
| RoomSpec.FullBoardIsDraw | index.js:76-98 | After that game the evaluation resets the board and nobody scores. |
| RoomSpec.OccupiedCellOverwritten | index.js:71 | A second move into an occupied cell replaces the mark: O overwrites X. |
| RoomSpec.FirstHolder | index.js:108-115 | A found id is one of the keys and names a room that lists the player. `FirstHolderFound` and `FirstHolderNone` complete its contract. |
| RoomSpec.FirstHolderFound | index.js:108-115 | A found id names a room that lists the player, and no id earlier in key order does. |
| RoomSpec.FirstHolderNone | index.js:108-115 | The search yields null exactly when no id in key order names a room listing the player. |
| RoomSpec.Truthy | index.js:68 | The found id counts as a room exactly when it is present and not the empty string. |
| Server.WinMessage | index.js:81-84 | The winner message is `Player `, then the winner's letter, then ` has won!`. |
| Server.Room.constructor | index.js:31-37 | The new record's value is `NewRoom(creator)`, with a fresh 9-cell board. |
| Server.Room.Place | index.js:70-72 | The record's value becomes `Moved` of its old value, and the returned mark is the old turn's. |
| Server.ListsEachOnceWrite | index.js:31 | Writing a key keeps the key order a duplicate-free listing of the keys: a new key is appended, a known one keeps its place. |
| Server.RoomStore.constructor | index.js:17 | The table starts empty. |
| Server.RoomStore.Store | index.js:31-37 | The map write stores the record under the id, replacing any old one. The key order is kept, and the table invariant still holds. |
| Server.RoomStore.CreateRoom | index.js:29-40 | Under the id there is now a fresh record equal to `NewRoom(creator)`. Every other id keeps its record, and those records are not modified. The creator is answered with `roomCreated`. |
| Server.RoomStore.JoinRoom | index.js:43-61 | Accepted exactly when the room exists and has fewer than 2 players; then the record becomes `Joined`. On rejection nothing changes and the sender gets `roomNotAvailable`. The start is scheduled exactly when the room has just reached 2 players. |
| Server.RoomStore.StartGame | index.js:49-57 | The room is told the game started. Nothing is modified, so the board and scores survive. |
| Server.RoomStore.FindRoomByPlayer | index.js:108-115 | Returns `FirstHolder` over the key order. A returned id is in the table and its room lists the player. |
| Server.RoomStore.NullOnlyWhenUnlisted | index.js:108-115 | The search yields null exactly when no room in the table lists the player. |
| Server.RoomStore.ApplyMove | index.js:65-74 | The moved room is the one the search finds, unless it finds none or the id "". Only that room and its board can change, and its value becomes `Moved`. No room's players change. The room receives `serverRecdMove` with the old turn's mark. If no room is found nothing changes and nothing is sent. |
| Server.RoomStore.ResetGame | index.js:155-164 | The record under the id becomes `Reset(old value, winner)`. Only that record and its board change. |
| Server.RoomStore.EvaluateOutcome | index.js:76-98 | The three cases are decided on the captured record's board. A win announces `Player X/O has won!`, a full board announces a draw, and each is followed by a reset under the id and a leaderboard of the captured record's counters. Otherwise nothing changes and nothing is sent. When the captured record is the one stored under the id, its new value is `Evaluated` of its old value. |

## Left out

- Express, the static file route and `server.listen` (index.js:1-15, 166-168): transport only.
- `socket.join` and socket.io delivery: messages are returned as a list tagged with their audience; room membership on the socket side is not modelled.
- The `console.log` calls and the disconnect handler (index.js:102-104), which only logs.
- Timers: the 2000 ms and 500 ms delays are not modelled. A caller runs `StartGame` and `EvaluateOutcome` when it chooses, so any interleaving with other handlers is the caller's.
- `generateRoomId` (index.js:20-22): `Math.random` is replaced by a room-id parameter.
- `script.js`, the browser client, is not part of this model.
- Server.RoomStore.StartGame: the initialisation branch (index.js:51-56) is not modelled. It runs only for a record without a board, and every record gets its board when it is created and keeps it.
- Server.RoomStore.ResetGame: clears the record's board array in place instead of assigning a new array. Nothing else refers to the old array, so the two cannot be told apart.
- Server.RoomStore.ApplyMove: requires `0 <= sqIdx < 9`. In JavaScript a larger or non-integer index would add a property to the array, and a string index arriving from the client is coerced; neither is modelled.
- Key order: JavaScript visits integer-like keys (such as "12") before the others, in numeric order. The model uses insertion order for every key, which is what `generateRoomId`'s ids (letters and digits) get unless they are all digits.
- Keys that collide with `Object.prototype` members (for example "__proto__" or "constructor") are treated as ordinary ids.
- Counters are unbounded naturals; JavaScript numbers lose precision past 2^53.
- No store-level run of a whole game: concrete games are stated on `RoomState` values (`RoomSpec.RowWinScoredForX`, `RoomSpec.FullBoardIsDraw`) rather than through a sequence of `RoomStore` calls.
