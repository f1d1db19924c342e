# Tetris_Local game rules and wire framing, modelled in Dafny

This model covers the deterministic core of a two-player networked Tetris:

- **Tetrominoes:** the seven kinds, each with four rotation states given as 4×4 bit matrices. A piece object carries a kind, its colour and a rotation counter.
- **Board:** a 20×10 grid of optional colours, with collision checking, placing a piece, clearing full rows, the top-out test and the landing-row search.
- **Game engine:** one player's game as a state machine. It covers:
  - the falling piece and its position;
  - a two-kind preview queue, the hold slot, the lock timer, the automatic drop clock;
  - score, cleared lines, level, combo, game-over and pause;
  - the actions: moves, rotations with a five-probe wall-kick list, hard drop, hold and swap, locking with scoring, the clock tick, pause, reset and the serialisable state record.
- **Message layer:** messages with a type, a player id, a data record and a timestamp, the message constructors, the JSON field defaults on reading, and the framing that puts a 4-byte big-endian length in front of the encoded payload and reads frames back from a socket chunk by chunk.

Modules:

| file | module | contents |
|---|---|---|
| `wrappers.dfy` | `Wrappers` | `Option` |
| `json.dfy` | `Json` | an abstract JSON value, truthiness, lookup with a default |
| `pieces.dfy` | `Pieces` | the shape table, `class Piece`, the cell scan |
| `board.dfy` | `Playfield` | grid functions, `class Board` |
| `engine.dfy` | `Engine` | the engine state, one pure transition per action, the state record |
| `game.dfy` | `Game` | `class GameEngine`, whose methods perform the transitions in place |
| `engine_facts.dfy` | `EngineFacts` | what the transitions preserve and guarantee |
| `snapshot.dfy` | `Snapshots` | a reader for the state record and its round trip |
| `protocol.dfy` | `Protocol` | messages, the length prefix, `class Socket`, frame receiving |

How the objects are modelled:

- **Pieces and boards are classes.**
  - A `Piece` is a class, because its rotation is changed in place.
  - A `Board` is a class whose `grid` sequence its methods reassign.
- **The GameEngine is a class tied to a pure state.**
  - `GameEngine` updates its fields in place.
  - Each of its methods is proved to move `State()`, which is the fields viewed as an `EngineState` value, exactly as the matching pure transition does.
  - What the rules guarantee is then proved about the transitions.
  - The class invariant `Valid()` says the board is 20×10 and the state is well formed. It holds for a reachable state: a falling piece, two kinds queued, non-negative points, and the level matching the lines. The constructor and `Reset` establish it, and every public action keeps it.
- **The socket is a class over a chunk sequence.**
  - It holds the chunks still to arrive.
  - `Recv(n)` returns at most `n` bytes of the next chunk, and an empty result at end of stream.

How the environment is modelled:

- **Time** is an integer count of milliseconds passed in by the caller.
- **Random piece choice** is an `oracle: nat -> Kind` fixed at construction and indexed by a draw counter.
- **JSON text and UTF-8** are the injected functions `encode: Value -> seq<Byte>` and `decode: seq<Byte> -> Option<Value>`.

## Model

| member | source | states |
|---|---|---|
| Pieces.ParseKind | game_logic/pieces.py:164-174 | a name is accepted iff it is one of the seven kind names, and the kind it gives has that name |
| Pieces.KindNameParses | game_logic/pieces.py:169-174 | every kind's name is accepted and gives that kind back |
| Pieces.Shape | game_logic/pieces.py:22-155 | every table entry is a 4×4 matrix of 0/1 entries |
| Pieces.ShapeTableIsWellFormed | game_logic/pieces.py:22-155 | the table has 7 kinds × 4 rotation states, each a 4×4 matrix of 0s and 1s |
| Pieces.RotationsCancel | game_logic/pieces.py:187-193 | a clockwise turn followed by a counter-clockwise one, or the reverse, gives back the rotation state |
| Pieces.OccupiedCellsSpec | game_logic/pieces.py:22-155 | for every kind and rotation: exactly 4 cells, each inside the 4×4 frame; strictly increasing row-major order, so no duplicates; a cell is listed iff its matrix entry is 1 |
| Pieces.OccupiedCellsIsScan | game_logic/pieces.py:195-209 | the cell table used by the rules is the row-major scan of the shape matrix |
| Pieces.FrameScan | game_logic/pieces.py:203-209 | the full scan of any 4×4 matrix lists exactly its set entries, in the frame, in row-major order |
| Pieces.ScanMembership | game_logic/pieces.py:205-208 | after scanning up to (row, col), an offset has been collected iff it is before that point and its entry is set |
| Pieces.ScanOrdered | game_logic/pieces.py:205-208 | scanned offsets are strictly increasing in row-major order |
| Pieces.FourCells | game_logic/pieces.py:22-155 | each shape matrix has exactly four set entries |
| Pieces.OPieceNeverTurns | game_logic/pieces.py:44-49 | all four rotation states of O cover the same cells |
| Pieces.Piece.constructor | game_logic/pieces.py:164-176 | a new piece has the given kind, rotation 0 and the colour of its kind |
| Pieces.Piece.GetShape | game_logic/pieces.py:178-185 | the shape matrix of the current kind and rotation |
| Pieces.Piece.RotateClockwise | game_logic/pieces.py:187-189 | the rotation becomes the next state modulo 4 |
| Pieces.Piece.RotateCounterClockwise | game_logic/pieces.py:191-193 | the rotation becomes the previous state modulo 4 |
| Pieces.Piece.GetOccupiedCells | game_logic/pieces.py:195-209 | returns the occupied cells of the current kind and rotation |
| Pieces.Piece.Copy | game_logic/pieces.py:211-220 | a fresh piece with the same kind, rotation and colour |
| Pieces.CollectCells | game_logic/pieces.py:203-209 | the nested row/column loop produces the row-major scan of the matrix |
| Pieces.NewPiece | game_logic/pieces.py:171-176 | an unknown type name is refused; a known one gives a fresh piece of that kind in rotation 0 with its colour |
| Pieces.CopyIsIndependent | game_logic/pieces.py:211-220 | turning a copy leaves the original's rotation unchanged |
| Playfield.EmptyGrid | game_logic/board.py:18-20 | 20 rows of 10 cells, all empty |
| Playfield.FitsIsAboveBottom | game_logic/board.py:43-44 | a position that passes the collision check is above the bottom edge |
| Playfield.PlaceColorsExactlyThePieceCells | game_logic/board.py:63-70 | placing colours exactly the piece cells that fall inside the grid; every other cell is unchanged |
| Playfield.DropRowSpec | game_logic/board.py:118-121 | the landing row is at or below the start, the row under it does not fit, and every row passed fits |
| Playfield.DropOnEmptyGrid | game_logic/board.py:106-121 | on an empty grid, a piece that fits falls until its lowest cell is on the bottom row |
| Playfield.DropRowStep | game_logic/board.py:119-120 | one step of the landing search |
| Playfield.FullRowsUpToExact | game_logic/board.py:79-84 | the collected indices are exactly the full rows, in increasing order |
| Playfield.FullRowsCount | game_logic/board.py:91 | the number collected equals the number of full rows |
| Playfield.ClearAsWrittenKeepsDimensions | game_logic/board.py:86-89 | the delete-and-insert loop keeps 20 rows of 10 cells |
| Playfield.ClearAsWrittenOneFullRow | game_logic/board.py:86-89 | with one full row r: an empty row on top, rows above r move down by one, rows below r stay |
| Playfield.ClearAsWrittenMatchesIntendedForOneRow | game_logic/board.py:72-91 | with one full row, the loop as written and the intended clearing agree |
| Playfield.ClearFullSpec | game_logic/board.py:72-91 | intended clearing: no full row remains; as many empty rows on top as rows were full; the non-full rows follow in their old order |
| Playfield.ClearAsWrittenKeepsAFullRow | game_logic/board.py:86-89 | with full rows 5 and 19 the loop as written leaves a full row at index 6 |
| Playfield.SecondDeletionMissesRowFive | game_logic/board.py:87-89 | the second deletion, by the original index 5, removes old row 4 |
| Playfield.Board.constructor | game_logic/board.py:18-20 | a new board is the empty 20×10 grid |
| Playfield.Board.IsValidPosition | game_logic/board.py:22-52 | true iff every cell is on a column 0..9 and above row 20, and lies on an empty grid cell when it is inside the grid; cells above the top are not checked |
| Playfield.Board.PlacePiece | game_logic/board.py:54-70 | the grid becomes the old grid with the piece painted in; cells outside the grid are skipped |
| Playfield.Board.PaintCells | game_logic/board.py:65-70 | the cell loop paints the in-grid cells |
| Playfield.Board.ClearLines | game_logic/board.py:72-91 | as written: the grid becomes the delete-and-insert result; the count is the number of rows that were full |
| Playfield.Board.ClearFullRows | game_logic/board.py:72-91 | corrected: the grid becomes the intended clearing; the count is the number of rows that were full |
| Playfield.Board.IsGameOver | game_logic/board.py:93-104 | true iff some cell of row 0 or row 1 is occupied |
| Playfield.Board.GetDropPosition | game_logic/board.py:106-121 | returns the landing row of the search |
| Playfield.Board.GetState | game_logic/board.py:123-130 | returns the grid as a value |
| Playfield.Board.SetState | game_logic/board.py:132-139 | the grid becomes the given state |
| Playfield.Board.Reset | game_logic/board.py:141-143 | the grid becomes empty |
| Playfield.SnapshotSurvivesMutation | game_logic/board.py:123-139 | a saved grid is not affected by later placements and clears, and restoring it gives back the grid |
| Engine.BaseScore | game_logic/game_engine.py:19-24 | points are awarded exactly for 1 to 4 lines |
| Engine.DropInterval | game_logic/game_engine.py:291 | the drop interval lies in 100..1000 ms and reaches the 100 ms floor exactly from level 10 |
| Engine.RefillSpec | game_logic/game_engine.py:59-63 | refilling keeps the queue and appends the next draws, up to two |
| Engine.SpawnedSpec | game_logic/game_engine.py:65-83 | a spawn does the following: pops the queue head at rotation 0; refills the queue to exactly two; puts the piece at (3, 0); re-arms hold and stops the lock timer; sets game-over iff the spawn spot does not fit; changes nothing else |
| Engine.StartedIsGood | game_logic/game_engine.py:31-57 | a new game: an empty board, zero points, level 1, the first draw falling, the next two queued, the hold slot empty |
| Engine.FirstKickSpec | game_logic/game_engine.py:184-190 | the probe search finds the first fitting probe, or none |
| Game.GameEngine.constructor | game_logic/game_engine.py:31-57 | the fields equal the start state |
| Game.GameEngine.Reset | game_logic/game_engine.py:312-314 | the fields equal a new start state on a fresh board |
| Game.GameEngine.FillPieceQueue | game_logic/game_engine.py:59-63 | the loop tops the queue up to two draws |
| Game.GameEngine.SpawnNewPiece | game_logic/game_engine.py:65-83 | performs the spawn transition |
| Game.GameEngine.MoveLeft | game_logic/game_engine.py:85-99 | succeeds iff the game is live and the piece fits one column left; performs the sideways transition; keeps the class invariant |
| Game.GameEngine.MoveRight | game_logic/game_engine.py:101-115 | succeeds iff the game is live and the piece fits one column right; performs the sideways transition; keeps the class invariant |
| Game.GameEngine.MoveDown | game_logic/game_engine.py:117-136 | succeeds iff the game is live and the piece fits one row down; performs the drop transition; keeps the class invariant |
| Game.GameEngine.RotateClockwise | game_logic/game_engine.py:138-155 | succeeds iff the game is live and a fitting shift exists for the turned piece; performs the turn transition; keeps the class invariant |
| Game.GameEngine.RotateCounterClockwise | game_logic/game_engine.py:157-174 | the same for the counter-clockwise turn; keeps the class invariant |
| Game.GameEngine.TryWallKicks | game_logic/game_engine.py:176-190 | finds the first probe at which the piece fits and shifts by it; otherwise the position is unchanged |
| Game.GameEngine.HardDrop | game_logic/game_engine.py:192-208 | returns the number of rows to the landing row, or 0 when the game is not live; performs the hard-drop transition; keeps the class invariant |
| Game.GameEngine.DropToRest | game_logic/game_engine.py:202-205 | the loop ends on the landing row and counts the rows passed |
| Game.GameEngine.HoldCurrentPiece | game_logic/game_engine.py:210-233 | succeeds iff the game is live and hold is armed; performs the hold transition; keeps the class invariant |
| Game.GameEngine.LockPiece | game_logic/game_engine.py:235-251 | performs the lock transition; keeps the class invariant |
| Game.GameEngine.SettlePiece | game_logic/game_engine.py:237-245 | fuses the piece into the board, clears full rows and scores them |
| Game.GameEngine.UpdateScore | game_logic/game_engine.py:253-270 | performs the scoring transition |
| Game.GameEngine.Update | game_logic/game_engine.py:272-294 | performs the clock-tick transition; keeps the class invariant |
| Game.GameEngine.GetGhostPosition | game_logic/game_engine.py:296-305 | 0 without a piece, otherwise the landing row of the current piece |
| Game.GameEngine.TogglePause | game_logic/game_engine.py:307-310 | performs the pause transition; keeps the class invariant |
| Game.GameEngine.GetState | game_logic/game_engine.py:316-337 | returns the state record of the current state |
| EngineFacts.RefusedActionsChangeNothing | game_logic/game_engine.py:92-93 | when the game is over, paused or has no piece, moves, drops, rotations, hold and hard drop change nothing |
| EngineFacts.MovedSidewaysSpec | game_logic/game_engine.py:95-99 | a sideways move changes only the column, by dx, and happens iff the new spot fits |
| EngineFacts.MovedDownSpec | game_logic/game_engine.py:127-136 | a soft drop either moves one row down and stops the lock timer, or keeps the position and starts the timer only if it was not running |
| EngineFacts.KickShiftSpec | game_logic/game_engine.py:148-155 | shift (0,0) if the turned piece fits in place, else the first fitting probe; none iff no probe fits; the piece fits after the shift |
| EngineFacts.TurnedSpec | game_logic/game_engine.py:138-174 | a rotation either takes the new orientation with the shift, or leaves the state unchanged |
| EngineFacts.TurnShiftFits | game_logic/game_engine.py:148-155 | a successful rotation leaves the piece where it fits |
| EngineFacts.HardDroppedSpec | game_logic/game_engine.py:202-208 | a hard drop locks at the landing row, with no delay |
| EngineFacts.DropOnEmptyBoard | game_logic/game_engine.py:296-305 | any kind in any rotation, dropped from the spawn spot on an empty board, lands with its lowest cell on row 19 |
| EngineFacts.AwardIsNonNegative | game_logic/game_engine.py:260-264 | points are never negative, and at least the base value when lines are cleared |
| EngineFacts.SettledSpec | game_logic/game_engine.py:237-270 | after fusing the piece and clearing n rows: for n > 0, the score grows by (base + combo·50)·level, lines by n, the level follows the lines and the combo grows by 1; for n = 0 the points stay and the combo resets |
| EngineFacts.SettledIsGood | game_logic/game_engine.py:237-270 | settling keeps the state well formed |
| EngineFacts.LockedSpec | game_logic/game_engine.py:247-251 | after settling: game over if the top rows are occupied, otherwise the next piece spawns |
| EngineFacts.LockedIsGood | game_logic/game_engine.py:235-251 | locking keeps the state well formed and leaves the piece in a valid position |
| EngineFacts.HeldSpec | game_logic/game_engine.py:220-233 | the first hold stores the kind and spawns; a swap brings the held kind to (3, 0) unturned; a second hold is refused |
| EngineFacts.HoldRefusedAfterHold | game_logic/game_engine.py:217-218 | once hold is spent, holding changes nothing |
| EngineFacts.UpdatedSpec | game_logic/game_engine.py:279-294 | an expired lock timer locks; otherwise a due drop moves down and restarts the drop clock |
| EngineFacts.GoodAfterMoves | game_logic/game_engine.py:85-174 | moves, rotations and pause keep the state well formed |
| EngineFacts.GoodAfterHold | game_logic/game_engine.py:210-233 | hold keeps the state well formed |
| EngineFacts.GoodAfterHardDrop | game_logic/game_engine.py:192-208 | a hard drop keeps the state well formed and the piece valid |
| EngineFacts.GoodAfterUpdate | game_logic/game_engine.py:272-294 | a clock tick keeps the state well formed and the piece valid |
| EngineFacts.LegalAfterTurn | game_logic/game_engine.py:138-174 | the piece is in a valid position after any rotation |
| EngineFacts.LegalAfterMoves | game_logic/game_engine.py:85-136 | the piece is in a valid position after any move |
| EngineFacts.LockKeepsProgress | game_logic/game_engine.py:264-270 | locking never lowers score, lines or level |
| EngineFacts.HardDropKeepsProgress | game_logic/game_engine.py:192-208 | a hard drop never lowers score, lines or level |
| EngineFacts.UpdateKeepsProgress | game_logic/game_engine.py:272-294 | a clock tick never lowers score, lines or level |
| EngineFacts.MovesKeepProgress | game_logic/game_engine.py:85-233 | moves, rotations, hold and pause leave score, lines and level unchanged |
| Snapshots.SnapshotReadsBack | game_logic/game_engine.py:316-337 | reading the state record back gives exactly the state parts it lists |
| Snapshots.SnapshotDeterminesView | game_logic/game_engine.py:316-337 | two states with the same record agree on those parts |
| Snapshots.GridReadsBack | game_logic/board.py:123-130 | the board entry reads back as the grid |
| Protocol.OrEmpty | networking/protocol.py:41 | a falsy data value becomes the empty record; a truthy one is kept |
| Protocol.NewMessage | networking/protocol.py:30-42 | a message keeps its type and player id; a truthy payload is kept, and a falsy one (null, false, 0, an empty string, list or record) becomes the empty record; it is stamped with the clock |
| Protocol.FromJson | networking/protocol.py:58-80 | a message is read iff the record has a type; a missing player id reads as null; data that is missing or falsy reads as the empty record, truthy data is kept; a missing timestamp is the clock |
| Protocol.JsonRoundTrip | networking/protocol.py:44-80 | reading a message's record gives the message back, with its type as the raw tag value |
| Protocol.ConnectMessage | networking/protocol.py:129-131 | type connect, no player id, data holds only the player name |
| Protocol.ConnectedMessage | networking/protocol.py:134-136 | type connected, the id, empty data |
| Protocol.InputMessage | networking/protocol.py:139-145 | type input, the id, data holds the action and the parameters, or the empty record if the parameters are falsy |
| Protocol.StateUpdateMessage | networking/protocol.py:148-154 | type state update, the id, data holds only the state |
| Protocol.GameOverMessage | networking/protocol.py:157-163 | type game over, the id, data holds only the score |
| Protocol.PrefixRoundTrip | networking/protocol.py:93 | decoding the 4-byte big-endian prefix gives back any length below 2^32 |
| Protocol.PrefixIsEncoding | networking/protocol.py:112 | any 4 bytes decode to a length below 2^32 whose encoding they are |
| Protocol.FromBigEndianOfFour | networking/protocol.py:112 | the value of 4 big-endian bytes |
| Protocol.Frame | networking/protocol.py:82-93 | a frame exists iff the payload is shorter than 2^32 bytes; it is 4 + length bytes, the payload after a prefix that decodes to its length |
| Protocol.Recvd | networking/protocol.py:108 | a receive returns at most n bytes of the next chunk, loses nothing, and is empty only at end of stream or for n = 0 |
| Protocol.Socket.Recv | networking/protocol.py:108 | receiving takes the next bytes as the receive function describes |
| Protocol.FrameReceived | networking/protocol.py:106-123 | when the prefix arrives in one piece, a frame followed by anything is received as its payload, and the rest is left |
| Protocol.FrameReceivedAlone | networking/protocol.py:106-123 | a frame sent as one chunk is received as its payload |
| Protocol.TruncatedFrameFails | networking/protocol.py:108-120 | a stream that ends inside a frame gives no payload |
| Protocol.SplitPrefixIsLost | networking/protocol.py:108-110 | a frame whose prefix arrives as two and two bytes is refused |
| Protocol.ReceiveFrame | networking/protocol.py:106-120 | as written: the one-receive header and the body loop give the received payload and leave the rest of the stream |
| Protocol.ReceiveExactly | networking/protocol.py:115-120 | the body loop returns the next n bytes, or nothing if the stream ends first, asking for at most the missing bytes and at most 4096 at a time |
| Protocol.ReceivedFullyAgrees | networking/protocol.py:106-120 | when the prefix arrives in one piece, the corrected reader and the one as written agree |
| Protocol.FrameReceivedFully | networking/protocol.py:106-120 | corrected: a frame followed by anything is received as its payload, whatever the chunking |
| Protocol.ReceiveFrameFully | networking/protocol.py:106-120 | corrected: reading the header with the body loop gives the payload of the flat stream |
| Protocol.ReceiveFromSocket | networking/protocol.py:95-126 | the message delivered is the decoded record of the received payload; a failure anywhere gives none |
| Protocol.MessageRoundTrip | networking/protocol.py:82-126 | when decoding inverts encoding, sending a message and receiving it gives the message back, with its type as the raw tag value |

## Left out

- Rendering, the launcher, the build script, the controller, argument parsing, and the networked server and client: user interface, process and thread I/O.
- JSON text and UTF-8: `json.dumps`/`json.loads` and `encode`/`decode` are parameters. A decode failure or a non-record value gives no message, as the source's exception handler does.
- Floating-point time:
  - `time.time()` is an integer millisecond parameter `now`;
  - `LOCK_DELAY` is 500 ms and the drop interval is `max(100, 1000 - (level - 1) * 100)` ms;
  - `update`'s `delta_time` is unused by the source and left out;
  - a message timestamp is the number `now`.
- `random.choice`: replaced by the oracle function and its draw counter.
- The queue and the hold slot hold kinds, not piece objects. Queued and held pieces are never turned, so a kind and rotation 0 say all there is about them.
- Colours are number triples; a cell reads as a three-number list in the state record. The `GHOST` and `EMPTY` colours are used only by the renderer.
- Python's exceptions are modelled as follows:
  - `Piece` with an unknown type name is the `null` result of `NewPiece`;
  - `to_bytes` on a payload of 2^32 bytes or more gives `None` rather than raising `OverflowError`.
- Game.GameEngine: the public actions require the class invariant `Valid()`, which the source does not state. The constructor establishes it and every action keeps it, so every state a caller can reach meets it. In particular `Update` is only modelled with a falling piece present. The source would fail at lock time without one, but from construction on there always is one.
- EngineFacts.GoodAfterHold: a swap from the hold slot does not check that the swapped-in piece fits at (3, 0), exactly as in the source. So the valid-position invariant is proved for every action but hold.
- Game.GameEngine.LockPiece: clears rows with the corrected clearing of the first Findings row, not the source's delete-and-insert loop. With at most one full row the two agree (`Playfield.ClearAsWrittenMatchesIntendedForOneRow`). After a lock that fills two or more rows, they differ:
  - the source leaves a full row on the board, and a later lock counts and scores it again, which raises lines, score, level and combo once more;
  - the model clears every full row and never scores one twice.
- Game.GameEngine.SettlePiece: calls `Board.ClearFullRows`, not `Board.ClearLines`. For two or more full rows its grid, and so the later lines, score and combo, differ from the source's as described for `LockPiece`.
- Game.GameEngine.HardDrop: ends in `LockPiece`, with the same difference after a clear of two or more rows.
- Game.GameEngine.Update: an expired lock timer ends in `LockPiece`, with the same difference after a clear of two or more rows.
- EngineFacts.SettledSpec: its grid clause is the corrected clearing. For two or more full rows the source's grid keeps a full row, and the scoring of later locks differs as described for `LockPiece`.
- EngineFacts.SettledOnSpec: the same, for any grid the piece was fused into.
- Game.GameEngine.GetState: the state record keeps the piece type, rotation and position but not the colour. A cell colour is written as a three-number list, where the source hands the record a Python tuple.
- Protocol.Socket: `recv` blocking, timeouts and connection errors are left out. An empty receive stands for a closed stream.
- The `from_json` text parsing step is not part of this model. Its field defaults are modelled over the abstract record.

## Findings

| source | as written | input that shows it | evidently intended | confidence | as-written member | corrected member |
|---|---|---|---|---|---|---|
| game_logic/board.py:87-89 | full rows are deleted by their original indices, highest first, but an empty row is inserted at the top after each delete, shifting the remaining full rows down by one | a board whose rows 5 and 19 are full: row 19 and then old row 4 are deleted, and the full row 5 survives at index 6 | remove exactly the full rows and drop the rest down | not executed | Playfield.Board.ClearLines, Playfield.ClearAsWrittenKeepsAFullRow | Playfield.Board.ClearFullRows, Playfield.ClearFullSpec |
| networking/protocol.py:108-110 | the 4-byte length prefix is read with a single `recv(4)`, and a shorter result is treated as failure | chunks `[0, 0]` then `[0, 1, 65]`, which carry the frame of the one-byte payload `[65]`: the first receive returns 2 bytes and the message is dropped | read the prefix with the same loop as the body, so any chunking works | not executed | Protocol.ReceiveFrame, Protocol.SplitPrefixIsLost | Protocol.ReceiveFrameFully, Protocol.FrameReceivedFully |
