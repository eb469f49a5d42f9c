/**
 * The socket handlers of index.js over the shared `rooms` table. Each room
 * record is a `Room` object whose fields the handlers update in place; the
 * table is a `RoomStore`. Transport calls (`socket.emit`, `io.to(..).emit`)
 * become the list of messages a handler returns, each tagged with whom it
 * goes to. The two `setTimeout` bodies are the separate methods `StartGame`
 * and `EvaluateOutcome`, which the caller invokes when the timer fires.
 */
module Server {
  import opened Wrappers
  import opened Board
  import opened RoomSpec

  /** `socket.emit` answers the sender; `io.to(roomId).emit` reaches every member of the room. */
  datatype Target = ToSender | ToRoom(roomId: string)

  /** The server-to-client messages of index.js. */
  datatype Event =
    | RoomCreated(roomId: string)
    | PlayerJoined(playerId: string)
    | GameStarted
    | RoomNotAvailable
    | ServerRecdMove(sqIdx: CellIndex, move: Cell, moverId: string)
    | GameOver(winner: Cell, message: string)
    | UpdateLeaderboard(xWins: nat, oWins: nat)

  datatype Message = Message(to: Target, event: Event)

  /** The text of the `gameOver` message for a winner. */
  function WinMessage(winner: Cell): (msg: string)
    requires winner != Empty
    ensures |msg| == 17 && msg[..7] == "Player " && msg[8..] == " has won!"
    ensures msg[7] == (if winner == X then 'X' else 'O')
  {
    "Player " + (if winner == X then "X" else "O") + " has won!"
  }

  const DrawMessage: string := "It's a draw!"

  /** One room record: `players`, `boardState`, `XTurn`, `XWins`, `OWins`. */
  class Room {
    /** The id the record was created under (a proof device only). */
    ghost const key: string
    const board: array<Cell>
    var players: seq<string>
    var xTurn: bool
    var xWins: nat
    var oWins: nat

    /** The record literal of `createRoom`. */
    constructor (ghost key: string, creator: string)
      ensures this.key == key && fresh(board)
      ensures Valid() && State() == NewRoom(creator)
    {
      this.key := key;
      board := new Cell[9](_ => Empty);
      players := [creator];
      xTurn := true;
      xWins := 0;
      oWins := 0;
      new;
      assert board[..] == EmptyBoard();
    }

    /** A record holds a 9-cell board and at most 2 players. */
    ghost predicate Valid()
      reads this
    {
      board.Length == 9 && |players| <= 2
    }

    /**
     * The record update of `playerMoved`: the mark for the current turn goes
     * into the cell, occupied or not, and the turn passes to the other mark.
     */
    method Place(sqIdx: CellIndex) returns (move: Cell)
      requires Valid()
      modifies this, board
      ensures Valid()
      ensures move == TurnMark(old(xTurn))
      ensures State() == Moved(old(State()), sqIdx)
    {
      move := if xTurn then X else O;
      board[sqIdx] := move;
      xTurn := !xTurn;
    }

    /** The record's current value. */
    ghost function State(): RoomState
      reads this, board
    {
      RoomState(players, board[..], xTurn, xWins, oWins)
    }
  }

  /** `order` lists the keys of the table, each exactly once. */
  ghost predicate ListsEachOnce(keys: set<string>, order: seq<string>)
  {
    && (forall id :: id in keys <==> id in order)
    && (forall i, j :: 0 <= i < j < |order| ==> order[i] != order[j])
  }

  /** Writing an id keeps the listing: a new id goes to the end, a known one keeps its place. */
  lemma ListsEachOnceWrite(keys: set<string>, order: seq<string>, id: string)
    requires ListsEachOnce(keys, order)
    ensures ListsEachOnce(keys + {id}, if id in keys then order else order + [id])
  {
  }

  /** The `rooms` table, with its keys in insertion order (the order `for .. in` visits them). */
  class RoomStore {
    var rooms: map<string, Room>
    var order: seq<string>

    /**
     * The table's shape: each record sits under the id it was created
     * under, no two records share a board, and `order` lists the keys.
     */
    ghost predicate Keyed()
      reads this
    {
      && (forall id :: id in rooms ==> rooms[id].key == id)
      && (forall i, j :: i in rooms && j in rooms && i != j ==> rooms[i].board != rooms[j].board)
      && ListsEachOnce(rooms.Keys, order)
    }

    ghost predicate Valid()
      reads this, rooms.Values
    {
      Keyed() && forall id :: id in rooms ==> rooms[id].Valid()
    }

    /** The players of every room, by id. */
    ghost function Members(): map<string, seq<string>>
      reads this, rooms.Values
    {
      map id | id in rooms :: rooms[id].players
    }

    /** The record stored under a found id, with its board. */
    ghost function RecordOf(found: Option<string>): set<object>
      reads this
    {
      if found.Some? && found.value in rooms then {rooms[found.value], rooms[found.value].board} else {}
    }

    /** The empty table. */
    constructor ()
      ensures Valid() && rooms == map[] && order == []
    {
      rooms := map[];
      order := [];
    }

    /**
     * `createRoom` under the given id: a fresh record with the creator as
     * its only player. A plain write, so an existing room under the same id
     * is replaced (keeping its place in key order); other ids keep their
     * records, which are not modified.
     */
    method CreateRoom(roomId: string, creator: string) returns (out: seq<Message>)
      requires Valid()
      modifies this
      ensures Valid()
      ensures rooms.Keys == old(rooms.Keys) + {roomId}
      ensures fresh(rooms[roomId]) && fresh(rooms[roomId].board)
      ensures rooms[roomId].State() == NewRoom(creator)
      ensures forall id :: id in old(rooms) && id != roomId ==> rooms[id] == old(rooms[id])
      ensures order == if roomId in old(rooms) then old(order) else old(order) + [roomId]
      ensures out == [Message(ToSender, RoomCreated(roomId))]
    {
      var room := new Room(roomId, creator);
      Store(roomId, room);
      out := [Message(ToSender, RoomCreated(roomId))];
    }

    /** The write `rooms[roomId] = record`: a new id goes last in key order, a known one keeps its place. */
    method Store(roomId: string, room: Room)
      requires Valid() && room.Valid() && room.key == roomId
      requires forall id :: id in rooms ==> rooms[id].board != room.board
      modifies this
      ensures Valid()
      ensures rooms == old(rooms)[roomId := room]
      ensures order == if roomId in old(rooms) then old(order) else old(order) + [roomId]
    {
      ListsEachOnceWrite(rooms.Keys, order, roomId);
      if roomId !in rooms {
        order := order + [roomId];
      }
      rooms := rooms[roomId := room];
      assert Keyed();
    }

    /**
     * `joinRoom`: accepted exactly when the room exists and has fewer than
     * 2 players; the joiner is appended. On rejection nothing changes. The
     * start is scheduled when the room has just reached 2 players.
     */
    method JoinRoom(roomId: string, player: string) returns (accepted: bool, startScheduled: bool, out: seq<Message>)
      requires Valid()
      modifies if roomId in rooms then {rooms[roomId]} else {}
      ensures Valid()
      ensures accepted == (roomId in rooms && |old(rooms[roomId].players)| < 2)
      ensures accepted ==> rooms[roomId].State() == Joined(old(rooms[roomId].State()), player)
      ensures !accepted && roomId in rooms ==> unchanged(rooms[roomId])
      ensures startScheduled == (accepted && |rooms[roomId].players| == 2)
      ensures out == if accepted then [Message(ToRoom(roomId), PlayerJoined(player))]
                     else [Message(ToSender, RoomNotAvailable)]
    {
      if roomId in rooms && |rooms[roomId].players| < 2 {
        var room := rooms[roomId];
        room.players := room.players + [player];
        accepted := true;
        startScheduled := |room.players| == 2;
        out := [Message(ToRoom(roomId), PlayerJoined(player))];
      } else {
        accepted, startScheduled := false, false;
        out := [Message(ToSender, RoomNotAvailable)];
      }
    }

    /**
     * The deferred start of `joinRoom`: it announces the game to the room.
     * Its initialisation runs only when the record has no board; every
     * record gets its board when it is created and keeps one, so the board,
     * the turn and the counters are left as they are.
     */
    method StartGame(roomId: string) returns (out: seq<Message>)
      requires Valid() && roomId in rooms
      ensures out == [Message(ToRoom(roomId), GameStarted)]
      ensures rooms[roomId].board.Length == 9
    {
      out := [Message(ToRoom(roomId), GameStarted)];
    }

    /**
     * `getRoomIdByPlayerId`: scans the ids in key order and returns the
     * first whose room lists the player, or `None` (null).
     */
    method FindRoomByPlayer(playerId: string) returns (found: Option<string>)
      requires Valid()
      ensures found == FirstHolder(order, Members(), playerId)
      ensures found.Some? ==> found.value in rooms && playerId in rooms[found.value].players
    {
      var i := 0;
      while i < |order|
        invariant 0 <= i <= |order|
        invariant FirstHolder(order[i..], Members(), playerId) == FirstHolder(order, Members(), playerId)
      {
        assert order[i..][1..] == order[i + 1..];
        if playerId in rooms[order[i]].players {
          return Some(order[i]);
        }
        i := i + 1;
      }
      return None;
    }

    /** The search yields null exactly when no room in the table lists the player. */
    lemma NullOnlyWhenUnlisted(playerId: string)
      requires Valid()
      ensures FirstHolder(order, Members(), playerId).None? <==>
        forall id :: id in rooms ==> playerId !in rooms[id].players
    {
      FirstHolderNone(order, Members(), playerId);
      if FirstHolder(order, Members(), playerId).None? {
        forall id | id in rooms ensures playerId !in rooms[id].players {
          var i :| 0 <= i < |order| && order[i] == id;
          assert !Lists(Members(), order[i], playerId);
        }
      }
    }

    /**
     * The immediate part of `playerMoved`. When the mover's room is found
     * (a found id of "" counts as none, as the truthiness test does), the
     * mark for the current turn is written into the cell, occupied or not,
     * and the turn flips; nothing checks that the mover owns that mark.
     * Otherwise nothing changes.
     */
    method ApplyMove(moverId: string, sqIdx: CellIndex) returns (moved: Option<string>, out: seq<Message>)
      requires Valid()
      modifies RecordOf(FirstHolder(order, Members(), moverId))
      ensures Valid()
      ensures moved == Truthy(old(FirstHolder(order, Members(), moverId)))
      ensures Members() == old(Members())
      ensures moved.Some? ==> moved.value in rooms
      ensures moved.Some? ==>
        rooms[moved.value].State() == Moved(old(rooms[moved.value].State()), sqIdx)
      ensures moved.Some? ==>
        out == [Message(ToRoom(moved.value),
                        ServerRecdMove(sqIdx, TurnMark(old(rooms[moved.value].xTurn)), moverId))]
      ensures moved.None? ==> unchanged(RecordOf(old(FirstHolder(order, Members(), moverId)))) && out == []
    {
      var found := FindRoomByPlayer(moverId);
      if found.Some? && found.value != "" {
        var move := rooms[found.value].Place(sqIdx);
        moved := found;
        out := [Message(ToRoom(found.value), ServerRecdMove(sqIdx, move, moverId))];
      } else {
        moved := None;
        out := [];
      }
    }

    /**
     * `resetGame`: the room under the id gets an all-null board and X to
     * move; the winner's counter, if the winner is X or O, goes up by one.
     */
    method ResetGame(winner: Cell, roomId: string)
      requires Valid() && roomId in rooms
      modifies rooms[roomId], rooms[roomId].board
      ensures Valid()
      ensures rooms[roomId].State() == Reset(old(rooms[roomId].State()), winner)
    {
      var room := rooms[roomId];
      forall i | 0 <= i < room.board.Length {
        room.board[i] := Empty;
      }
      room.xTurn := true;
      if winner == X {
        room.xWins := room.xWins + 1;
      } else if winner == O {
        room.oWins := room.oWins + 1;
      }
      assert room.board[..] == EmptyBoard();
    }

    /**
     * The deferred part of `playerMoved`. It evaluates the record captured
     * at move time and resets the record now stored under the id: a winner
     * is announced, scored and the leaderboard sent; a full board is
     * announced as a draw and reset unscored; otherwise nothing happens.
     * The leaderboard carries the captured record's counters.
     */
    method EvaluateOutcome(roomId: string, room: Room) returns (out: seq<Message>)
      requires Valid() && roomId in rooms && room.Valid()
      modifies rooms[roomId], rooms[roomId].board
      ensures Valid()
      ensures old(CheckWin(room.board[..])) != Empty ==>
        && rooms[roomId].State() == Reset(old(rooms[roomId].State()), old(CheckWin(room.board[..])))
        && out == [Message(ToRoom(roomId), GameOver(old(CheckWin(room.board[..])), WinMessage(old(CheckWin(room.board[..]))))),
                   Message(ToRoom(roomId), UpdateLeaderboard(room.xWins, room.oWins))]
      ensures old(CheckWin(room.board[..])) == Empty && old(CheckGameOver(room.board[..])) ==>
        && rooms[roomId].State() == Reset(old(rooms[roomId].State()), Empty)
        && out == [Message(ToRoom(roomId), GameOver(Empty, DrawMessage)),
                   Message(ToRoom(roomId), UpdateLeaderboard(room.xWins, room.oWins))]
      ensures !old(CheckGameOver(room.board[..])) ==> unchanged(rooms[roomId], rooms[roomId].board) && out == []
      ensures room == rooms[roomId] ==> rooms[roomId].State() == Evaluated(old(rooms[roomId].State()))
    {
      var board := room.board[..];
      var winner := CheckWin(board);
      var gameOver := CheckGameOver(board);
      if winner != Empty {
        var announce := Message(ToRoom(roomId), GameOver(winner, WinMessage(winner)));
        ResetGame(winner, roomId);
        out := [announce, Message(ToRoom(roomId), UpdateLeaderboard(room.xWins, room.oWins))];
      } else if gameOver {
        var announce := Message(ToRoom(roomId), GameOver(Empty, DrawMessage));
        ResetGame(Empty, roomId);
        out := [announce, Message(ToRoom(roomId), UpdateLeaderboard(room.xWins, room.oWins))];
      } else {
        out := [];
      }
    }
  }
}
