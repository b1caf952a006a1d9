# Chess rooms: the session coordinator and the chat dedupe, in Dafny

This project models the game server of a two-player online chess site with
spectators and chat. The server keeps a registry `rooms`, a Map from room code
to `{players, spectators, game, messages}`. Five socket events change it:

- `joinRoom` creates a room, takes a seat or starts watching.
- `move` plays a move through the chess engine.
- `resetGame` restarts the game.
- `sendMessage` stores and broadcasts chat without duplicates.
- `disconnect` gives up the socket's seat or spectator entry and drops emptied rooms.

This project also models two small pure pieces of the chat client component:

- merging a received message into the list shown on screen, where an id already shown is dropped;
- turning the input box into an outgoing message, trimmed, with blank input ignored.

Files:

- `wrappers.dfy`: `Option`.
- `chess_engine.dfy`: the chess engine (chess.js) as an oracle.
  - Legality, status and FEN text are function values in an `Engine`, so every proof holds for any engine.
  - A game is the list of moves accepted since the start position.
  - `Turn` follows from the move count, since white moves first and every accepted move passes the turn.
- `chat.dfy`: the chat message record, the receive updater, `String.prototype.trim` and the send guard.
- `server.dfy`: rooms, outbound events, the `Coordinator` class and its five handlers, and scenarios.
  - The class holds `rooms: map<string, Room>` plus `order: seq<string>`, the codes in Map insertion order.
  - `disconnect` walks the codes in that order and stops at the first match.

Every handler returns the emits it makes, in order, as `seq<Emit>`. Each emit has a target:

- `Caller` is `socket.emit`.
- `ToRoom(code)` is `io.to(code).emit`.
- `RoomExceptCaller(code)` is `socket.to(code).emit`.

Which sockets are in a room's group is not resolved. Every handler keeps the registry invariant `Valid()`:

- every code is listed once in `order`;
- every room has at most two seats and at least one participant;
- no two stored chat messages share an id.

The model follows the server as written in these places, some of which may be
unexpected:

- Room codes are used as given. Upper-casing happens only in the landing page's client code.
- Whoever takes the second seat is told black, even when the remaining player is the black one (`SecondBlackScenario`). The server does not track seat colours.
- A room whose players have all left but which still has spectators stays open. The next player to join takes its first seat and is told black too, so nobody in it plays white.
- `opponentJoined` goes to the room except the caller, so spectators get it too, not only the other player.
- `resetGame` and `move` check only that the room exists. Any socket can reset, or move either colour, in any room whose code it sends.
- A successful spectator join and a successful second-seat join each send `spectatorCount` twice.
- `gameOver` carries the empty text when the engine reports the game over without checkmate or draw.
- `disconnect` checks seat, then spectator, room by room. It does not first scan all rooms for seats.

## Model

| member | source | states |
|---|---|---|
| `ChessEngine.ApplyMove` | server/index.js:74-75 | a move is accepted exactly when the engine finds it legal; an accepted move extends the game by one move and passes the turn to the other side |
| `Chat.Receive` | components/Chat.tsx:29-35 | the old list is a prefix of the result and the message's id is shown afterwards; the list is unchanged exactly when the id was already shown, otherwise the message is appended at the end; distinct ids stay distinct |
| `ChessEngine.Turn` | server/index.js:82 | the side to move, defined as white at the start with every accepted move passing the turn, is white exactly after an even number of moves |
| `Chat.ReceiveIdempotent` | components/Chat.tsx:29-35 | delivering the same message twice gives the same list as delivering it once |
| `Chat.ReceiveAllShowsEachIdOnce` | components/Chat.tsx:28-35 | after any run of deliveries the old list is a prefix, every delivered id is shown, nothing but old or delivered messages appears, and a list without duplicate ids never gains one |
| `Chat.ReceiveAllKnown` | components/Chat.tsx:31-32 | deliveries whose ids are all shown already leave the list unchanged |
| `Chat.ReceiveAllIdempotent` | components/Chat.tsx:28-35 | delivering a whole batch a second time changes nothing |
| `Chat.TrimStart` | components/Chat.tsx:48 | the result is a suffix of the input that does not start with whitespace, and all that was dropped is whitespace |
| `Chat.TrimEnd` | components/Chat.tsx:48 | the result is a prefix of the input that does not end with whitespace, and all that was dropped is whitespace |
| `Chat.Trim` | components/Chat.tsx:48 | the trimmed text is a contiguous piece of the input, everything before and after it is whitespace, it has no whitespace at either end, and it is empty exactly when the input is all whitespace |
| `Chat.TrimIdempotent` | components/Chat.tsx:48-52 | trimming the trimmed text changes nothing |
| `Chat.SendMessage` | components/Chat.tsx:48-56 | nothing is sent, and the input kept, exactly when the input is all whitespace; a sent event carries the room code and a message with the trimmed, non-blank text, the player's name and the given id and time, and the input is cleared |
| `Server.FindPlayer` | server/index.js:115 | -1 exactly when no seat has the id; otherwise the index of the first seat held by it |
| `Server.FirstMember` | server/index.js:113-135 | the position, in insertion order, of the first room in which the socket holds a seat or watches, with no such room before it; the length of the list when there is none |
| `Server.FirstMemberIsUnique` | server/index.js:113-135 | a position with no member room before it and a member room at it is the one `FirstMember` gives |
| `Server.RemoveAtIndex` | server/index.js:119 | deleting one key from the insertion order removes exactly that code and leaves no duplicates |
| `Server.Replay` | server/index.js:44-46 | the history replay is one `chatMessage` per stored message, to the caller only, in stored order |
| `Server.ReplayMessages` | server/index.js:56-58 | the replay loop emits exactly `Replay` of the stored messages |
| `Server.GameOverText` | server/index.js:80-85 | the text is empty exactly for a game over without checkmate or draw; a checkmate names the side not to move as winner; a draw gets the draw text (its distinctness and the winner after a move are stated by `GameOverTextsDiffer` and `CheckmateNamesMover`) |
| `Server.GameOverTextsDiffer` | server/index.js:80-86 | checkmate, draw and other ends get different `gameOver` texts, and the two checkmate texts name different winners |
| `Server.CheckmateNamesMover` | server/index.js:81-82 | after an accepted move that gives checkmate, the text names as winner the side that has just moved |
| `Server.LeaveSeat` | server/index.js:115-124 | giving up a seat drops the room exactly when the socket was its only participant; otherwise the first seat held by it goes, and "Opponent disconnected" and the unchanged count go to the room |
| `Server.LeaveWatch` | server/index.js:128-134 | leaving as a spectator drops the room exactly when the socket was its only participant; the count drops by one and is sent to the room in both cases, also before a deletion |
| `Server.Leave` | server/index.js:115-135 | leaving removes exactly one participant and keeps the room well formed, game and chat included; a seat given up in a surviving room sends "Opponent disconnected" and the unchanged count to the room, a seat in a dropped room sends nothing, and leaving as a spectator sends the reduced count; every emit goes to that room |
| `Server.RegistryUpdate` | server/index.js:36-39 | replacing a room by a well-formed room keeps the registry invariant |
| `Server.RegistryRemove` | server/index.js:118-119 | deleting a room's entry from the map and from the insertion order keeps the registry invariant |
| `Server.Coordinator.constructor` | server/index.js:17 | the registry starts empty and valid |
| `Server.Coordinator.JoinRoom` | server/index.js:20-69 | the five branches of `joinRoom`: an unknown code for a spectator is an error to the caller with no room created; an unknown code for a player creates the room with the caller on the only seat, the start position and no chat, and sends white and a count of 0; a spectator is added and gets the position, the count, the history and the count again; a free seat in an existing room (fewer than two players, possibly none) is appended and sends black to the caller, opponentJoined to the rest, position and count to the room, history to the caller and the count again; a full room is an error to the caller with nothing changed; the invariant (at most two seats) is kept |
| `Server.Coordinator.Move` | server/index.js:71-92 | unknown room: nothing; rejected move: "Invalid move" to the caller, game unchanged; accepted move: the room's game becomes the engine's result, its FEN is broadcast, and a `gameOver` with `GameOverText` follows exactly when the new game is over |
| `Server.Coordinator.ResetGame` | server/index.js:94-100 | unknown room: nothing; otherwise the game is back at the start and its FEN goes to the room |
| `Server.Coordinator.SendMessage` | server/index.js:102-110 | unknown room or known id: nothing changes and nothing is sent; otherwise the message is appended and broadcast once; stored ids stay distinct |
| `Server.Coordinator.Disconnect` | server/index.js:112-137 | a socket in no room changes nothing; otherwise only the first room in insertion order in which it takes part is changed, as `Leave` says, and that room is dropped from the map and from the order once empty |
| `Server.SeatAliceAndBob` | server/index.js:28-58 | from an empty registry, two player joins to AB12 leave exactly one room holding the seats [Alice, Bob], no spectators, the start position and no chat; Alice was told white, Bob black |
| `Server.RoomFullScenario` | server/index.js:48-62 | Alice gets white, Bob gets black and Alice is told that Bob joined, Carl gets "Room is full", and the seats stay [Alice, Bob] |
| `Server.UnknownRoomScenario` | server/index.js:23-27 | a spectator join to an unknown code gets "Room does not exist" and the registry stays empty |
| `Server.RejoinScenario` | server/index.js:112-137 | after the only participant of a room in which a legal move was played and a message stored leaves, joining its code again creates a fresh room: white, start position, no chat |
| `Server.SecondBlackScenario` | server/index.js:48-50 | when white leaves and a new player joins, the new player is told black, as the remaining player was |

## Left out

- The Express, http and socket.io setup, CORS and listening on port 3001 (server/index.js:1-15, 140-143) are transport.
- `socket.join(roomCode)` (server/index.js:21) is left out because group bookkeeping is not modelled. It runs before the spectator check, so even a refused socket joins the group.
- chess.js legality, FEN text and game-over detection are oracle functions of the `Engine`. The model only relies on white moving first and the turn passing on each accepted move.
- Rooms are values in the map, not objects updated in place. The registry alone holds them, and no handler keeps one across events, so nothing aliases a room.
- The client's chess component (`makeMove`'s local chess.js check, the extra `fen` field, React state) is not part of this model. The same goes for the landing page (routing, room-code generation from `Math.random`, upper-casing) and the page layouts.
- The chat message id and timestamp come from `Date.now` and `Math.random`, so here they are inputs. The scroll effect and the markup are UI.
- Concurrency is left out. Node's event loop runs each handler to completion, so each handler is one method.
- Trim works on Unicode scalar values rather than UTF-16 code units. The two agree, because no whitespace character lies outside the Basic Multilingual Plane.
