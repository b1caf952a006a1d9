/**
  The room coordinator of the game server: a registry of rooms keyed by room
  code and the five event handlers that change it (joinRoom, move, resetGame,
  sendMessage and disconnect).

  Outbound traffic is modelled, not sent: every handler returns the emits it
  makes, in order, each with an abstract target (the calling socket, the whole
  room, or the room without the caller). Group membership of sockets is not
  resolved here.
*/
module Server {
  import opened Wrappers
  import opened ChessEngine
  import Chat

  // ---------------------------------------------------------------------
  // Data model
  // ---------------------------------------------------------------------

  /** A seat: the socket id and the display name given at join time. */
  datatype Player = Player(id: string, name: string)

  /** The state kept per room code. */
  datatype Room = Room(players: seq<Player>, spectators: set<string>, game: Game, messages: seq<Chat.ChatMessage>)

  /** Who an emit is addressed to: the calling socket, every socket in the room,
      or every socket in the room but the caller. */
  datatype Target = Caller | ToRoom(code: string) | RoomExceptCaller(code: string)

  /** The outbound events with their payloads. */
  datatype Event =
    | PlayerColor(color: Color)
    | OpponentJoined(name: string)
    | SpectatorCount(count: nat)
    | GameState(fen: string)
    | ChatEvent(message: Chat.ChatMessage)
    | GameOver(text: string)
    | Error(text: string)

  datatype Emit = Emit(target: Target, event: Event)

  const SpectatorMode := "spectator"
  const RoomDoesNotExist := "Room does not exist"
  const RoomIsFull := "Room is full"
  const InvalidMove := "Invalid move"
  const OpponentDisconnected := "Opponent disconnected"
  const DrawText := "The game has ended in a draw."

  /** What every room in the registry satisfies: at most two seats, at least one
      participant, and no two stored chat messages with the same id. */
  predicate RoomOk(r: Room)
  {
    |r.players| <= 2 && (|r.players| > 0 || |r.spectators| > 0) && Chat.IdsDistinct(r.messages)
  }

  predicate NoDups(s: seq<string>)
  {
    forall i, j :: 0 <= i < j < |s| ==> s[i] != s[j]
  }

  // ---------------------------------------------------------------------
  // Lookups used by the handlers
  // ---------------------------------------------------------------------

  predicate IsPlayer(players: seq<Player>, id: string)
  {
    exists j :: 0 <= j < |players| && players[j].id == id
  }

  /** The index of the first seat held by `id`, or -1 when it holds none. */
  function FindPlayer(players: seq<Player>, id: string): (k: int)
    ensures -1 <= k < |players|
    ensures k == -1 <==> !IsPlayer(players, id)
    ensures k >= 0 ==> players[k].id == id && forall j :: 0 <= j < k ==> players[j].id != id
  {
    if players == [] then -1
    else if players[0].id == id then 0
    else
      var k := FindPlayer(players[1..], id);
      assert forall j :: 1 <= j < |players| ==> players[j] == players[1..][j - 1];
      if k == -1 then -1 else k + 1
  }

  /** `id` holds a seat in the room or watches it. */
  predicate IsMember(r: Room, id: string)
  {
    IsPlayer(r.players, id) || id in r.spectators
  }

  /** The position in `codes` of the first room that `id` belongs to, or `|codes|`. */
  function FirstMember(codes: seq<string>, rooms: map<string, Room>, id: string): (k: nat)
    requires forall c :: c in codes ==> c in rooms
    ensures k <= |codes|
    ensures forall j :: 0 <= j < k ==> !IsMember(rooms[codes[j]], id)
    ensures k < |codes| ==> IsMember(rooms[codes[k]], id)
  {
    if codes == [] then 0
    else if IsMember(rooms[codes[0]], id) then 0
    else
      assert forall j :: 1 <= j < |codes| ==> codes[j] == codes[1..][j - 1];
      1 + FirstMember(codes[1..], rooms, id)
  }

  /** Removing the entry at `k` from a duplicate-free list of codes removes exactly
      that code and keeps the list duplicate-free. */
  lemma RemoveAtIndex(s: seq<string>, k: nat)
    requires NoDups(s) && k < |s|
    ensures forall y :: y in s[..k] + s[k + 1..] <==> y in s && y != s[k]
    ensures NoDups(s[..k] + s[k + 1..])
  {
  }

  // ---------------------------------------------------------------------
  // Emits built by the handlers
  // ---------------------------------------------------------------------

  /** The chat history replayed to a joining socket, one `chatMessage` each, in order. */
  function Replay(msgs: seq<Chat.ChatMessage>): (r: seq<Emit>)
    ensures |r| == |msgs|
    ensures forall i :: 0 <= i < |msgs| ==> r[i] == Emit(Caller, ChatEvent(msgs[i]))
  {
    if msgs == [] then []
    else [Emit(Caller, ChatEvent(msgs[0]))] + Replay(msgs[1..])
  }

  /** The replay loop that sends each stored message to the caller, one after another. */
  method ReplayMessages(msgs: seq<Chat.ChatMessage>) returns (out: seq<Emit>)
    ensures out == Replay(msgs)
  {
    out := [];
    var i := 0;
    while i < |msgs|
      invariant 0 <= i <= |msgs|
      invariant |out| == i
      invariant forall j :: 0 <= j < i ==> out[j] == Emit(Caller, ChatEvent(msgs[j]))
    {
      out := out + [Emit(Caller, ChatEvent(msgs[i]))];
      i := i + 1;
    }
  }

  function ColorName(c: Color): string
  {
    if c == White then "White" else "Black"
  }

  /** The announcement of a checkmate won by `winner`. */
  function WinText(winner: Color): string
  {
    "Checkmate! " + ColorName(winner) + " wins!"
  }

  /** The `gameOver` text for a finished game, given the side to move: the side
      not to move wins a checkmate; a game that is over without being checkmate
      or a draw gets the empty text. */
  function GameOverText(status: Status, toMove: Color): (t: string)
    requires status.IsGameOver()
    ensures t == "" <==> status == OtherEnd
    ensures status == Checkmate ==> t == WinText(Opponent(toMove))
    ensures status == Draw ==> t == DrawText
  {
    if status == Checkmate then "Checkmate! " + ColorName(Opponent(toMove)) + " wins!"
    else if status == Draw then DrawText
    else ""
  }

  /** The text tells the outcome apart: checkmate, draw and other ends get
      different texts, and the two checkmate texts differ in the winner named. */
  lemma GameOverTextsDiffer(s1: Status, c1: Color, s2: Status, c2: Color)
    requires s1.IsGameOver() && s2.IsGameOver()
    requires s1 != s2 || (s1 == Checkmate && c1 != c2)
    ensures GameOverText(s1, c1) != GameOverText(s2, c2)
  {
    var t1, t2 := GameOverText(s1, c1), GameOverText(s2, c2);
    if s1 == Checkmate && s2 == Checkmate {
      assert t1[11] != t2[11];
    } else if s1 != OtherEnd && s2 != OtherEnd {
      assert t1[0] != t2[0];
    } else {
      assert |t1| != |t2|;
    }
  }

  /** After a checkmating move the text names the side that played it. */
  lemma CheckmateNamesMover(e: Engine, g: Game, m: ChessMove)
    requires ApplyMove(e, g, m).Some?
    requires e.status(ApplyMove(e, g, m).value) == Checkmate
    ensures GameOverText(Checkmate, Turn(ApplyMove(e, g, m).value)) == WinText(Turn(g))
  {
  }

  /** What leaving one room does: the room afterwards (None once it has no
      participant left) and the emits to it. */
  datatype Departure = Departure(room: Option<Room>, out: seq<Emit>)

  /** Giving up the first seat `id` holds (`findIndex` and `splice`); the room
      stays unless nobody is left in it. */
  function LeaveSeat(code: string, r: Room, id: string): (d: Departure)
    requires IsPlayer(r.players, id)
    ensures d.room.None? <==> |r.players| + |r.spectators| == 1
    ensures RoomOk(r) && d.room.Some? ==> RoomOk(d.room.value)
    ensures d.room.Some? ==> |d.room.value.players| == |r.players| - 1
    ensures Emit(ToRoom(code), Error(OpponentDisconnected)) in d.out <==> d.room.Some?
    ensures forall e :: e in d.out ==> e.target == ToRoom(code)
    ensures d.room.Some? ==>
      var i := FindPlayer(r.players, id);
      && d.room.value == r.(players := r.players[..i] + r.players[i + 1..])
      && d.out == [Emit(ToRoom(code), Error(OpponentDisconnected)), Emit(ToRoom(code), SpectatorCount(|r.spectators|))]
    ensures d.room.None? ==> d.out == []
  {
    var i := FindPlayer(r.players, id);
    var rest := r.players[..i] + r.players[i + 1..];
    if |rest| == 0 && |r.spectators| == 0 then Departure(None, [])
    else
      Departure(Some(r.(players := rest)),
                [Emit(ToRoom(code), Error(OpponentDisconnected)), Emit(ToRoom(code), SpectatorCount(|r.spectators|))])
  }

  /** Stopping watching; the new count goes out before the room is dropped. */
  function LeaveWatch(code: string, r: Room, id: string): (d: Departure)
    requires id in r.spectators
    ensures d.room.None? <==> |r.players| + |r.spectators| == 1
    ensures RoomOk(r) && d.room.Some? ==> RoomOk(d.room.value)
    ensures d.room.Some? ==> |d.room.value.spectators| == |r.spectators| - 1
    ensures Emit(ToRoom(code), Error(OpponentDisconnected)) !in d.out
    ensures d.room.Some? ==> d.room.value == r.(spectators := r.spectators - {id})
    ensures d.out == [Emit(ToRoom(code), SpectatorCount(|r.spectators| - 1))]
  {
    var watchers := r.spectators - {id};
    var out := [Emit(ToRoom(code), SpectatorCount(|watchers|))];
    if |r.players| == 0 && |watchers| == 0 then Departure(None, out)
    else Departure(Some(r.(spectators := watchers)), out)
  }

  /** The body of the `disconnect` loop for the room `code` in which `id` takes
      part: its seat if it holds one, otherwise its spectator entry. */
  function Leave(code: string, r: Room, id: string): (d: Departure)
    requires IsMember(r, id)
    // the room is dropped exactly when the socket was its last participant
    ensures d.room.None? <==> |r.players| + |r.spectators| == 1
    ensures RoomOk(r) && d.room.Some? ==> RoomOk(d.room.value)
    ensures d.room.Some? ==> d.room.value.game == r.game && d.room.value.messages == r.messages
    ensures d.room.Some? ==> |d.room.value.players| + |d.room.value.spectators| == |r.players| + |r.spectators| - 1
    // a seat: the first seat held by the socket is given up, the others keep their order
    ensures IsPlayer(r.players, id) && d.room.Some? ==>
      var i := FindPlayer(r.players, id);
      d.room.value.players == r.players[..i] + r.players[i + 1..] && d.room.value.spectators == r.spectators
    ensures IsPlayer(r.players, id) && d.room.Some? ==>
      d.out == [Emit(ToRoom(code), Error(OpponentDisconnected)), Emit(ToRoom(code), SpectatorCount(|r.spectators|))]
    // a seat in a room that is dropped: nothing goes out
    ensures IsPlayer(r.players, id) && d.room.None? ==> d.out == []
    // only watching: the socket stops watching and the new count goes out, even to an empty room
    ensures !IsPlayer(r.players, id) ==>
      && (d.room.Some? ==> d.room.value.players == r.players && d.room.value.spectators == r.spectators - {id})
      && d.out == [Emit(ToRoom(code), SpectatorCount(|r.spectators| - 1))]
    // the opponent notice goes out only for a seat, and only to a room that survives
    ensures Emit(ToRoom(code), Error(OpponentDisconnected)) in d.out <==> IsPlayer(r.players, id) && d.room.Some?
    ensures forall e :: e in d.out ==> e.target == ToRoom(code)
  {
    if FindPlayer(r.players, id) != -1 then LeaveSeat(code, r, id) else LeaveWatch(code, r, id)
  }

  /** The registry invariant: `order` lists every code of `rooms` exactly once
      and every room is well formed. */
  ghost predicate RegistryOk(rooms: map<string, Room>, order: seq<string>)
  {
    && (forall c :: c in order <==> c in rooms)
    && NoDups(order)
    && (forall c :: c in rooms ==> RoomOk(rooms[c]))
  }

  /** Replacing a room by a well-formed one keeps the invariant. */
  lemma RegistryUpdate(rooms: map<string, Room>, order: seq<string>, c: string, r: Room)
    requires RegistryOk(rooms, order) && c in rooms && RoomOk(r)
    ensures RegistryOk(rooms[c := r], order)
  {
  }

  /** Dropping the room at position `k` of the insertion order keeps the invariant. */
  lemma RegistryRemove(rooms: map<string, Room>, order: seq<string>, k: nat)
    requires RegistryOk(rooms, order) && k < |order|
    ensures RegistryOk(rooms - {order[k]}, order[..k] + order[k + 1..])
  {
    RemoveAtIndex(order, k);
  }

  /** The position the `disconnect` loop stops at is the one FirstMember names. */
  lemma FirstMemberIsUnique(codes: seq<string>, rooms: map<string, Room>, id: string, k: nat)
    requires forall c :: c in codes ==> c in rooms
    requires k <= |codes|
    requires forall j :: 0 <= j < k ==> !IsMember(rooms[codes[j]], id)
    requires k < |codes| ==> IsMember(rooms[codes[k]], id)
    ensures FirstMember(codes, rooms, id) == k
  {
  }

  // ---------------------------------------------------------------------
  // The registry and its handlers
  // ---------------------------------------------------------------------

  class Coordinator {
    /** The rules engine every room's game is played with. */
    const engine: Engine
    /** `rooms`, a Map from room code to room state. */
    var rooms: map<string, Room>
    /** The keys of `rooms` in insertion order, the order `rooms.entries()` visits them. */
    var order: seq<string>

    ghost predicate Valid()
      reads this
    {
      RegistryOk(rooms, order)
    }

    constructor (engine: Engine)
      ensures Valid()
      ensures this.engine == engine && rooms == map[] && order == []
    {
      this.engine := engine;
      rooms := map[];
      order := [];
    }

    /** The `joinRoom` handler. */
    method JoinRoom(caller: string, code: string, name: string, mode: string) returns (out: seq<Emit>)
      requires Valid()
      modifies this
      ensures Valid()
      // spectator, unknown code: an error to the caller, and no room is created
      ensures code !in old(rooms) && mode == SpectatorMode ==>
        && rooms == old(rooms) && order == old(order)
        && out == [Emit(Caller, Error(RoomDoesNotExist))]
      // player, unknown code: a fresh room with the caller as its only player
      ensures code !in old(rooms) && mode != SpectatorMode ==>
        && rooms == old(rooms)[code := Room([Player(caller, name)], {}, Start, [])]
        && order == old(order) + [code]
        && out == [Emit(Caller, PlayerColor(White)), Emit(ToRoom(code), SpectatorCount(0))]
      // spectator, known code: the caller watches; position, count, history, count again
      ensures code in old(rooms) && mode == SpectatorMode ==>
        var r := old(rooms)[code];
        var count := |r.spectators + {caller}|;
        && rooms == old(rooms)[code := r.(spectators := r.spectators + {caller})]
        && order == old(order)
        && out == [Emit(Caller, GameState(engine.fen(r.game))), Emit(ToRoom(code), SpectatorCount(count))]
                  + Replay(r.messages) + [Emit(ToRoom(code), SpectatorCount(count))]
      // player, a free seat: the caller takes the last seat and is told black
      ensures code in old(rooms) && mode != SpectatorMode && |old(rooms)[code].players| < 2 ==>
        var r := old(rooms)[code];
        var count := |r.spectators|;
        && rooms == old(rooms)[code := r.(players := r.players + [Player(caller, name)])]
        && order == old(order)
        && out == [ Emit(Caller, PlayerColor(Black)), Emit(RoomExceptCaller(code), OpponentJoined(name))
                  , Emit(ToRoom(code), GameState(engine.fen(r.game))), Emit(ToRoom(code), SpectatorCount(count))]
                  + Replay(r.messages) + [Emit(ToRoom(code), SpectatorCount(count))]
      // player, both seats taken: an error to the caller and nothing changes
      ensures code in old(rooms) && mode != SpectatorMode && |old(rooms)[code].players| >= 2 ==>
        && rooms == old(rooms) && order == old(order)
        && out == [Emit(Caller, Error(RoomIsFull))]
    {
      if code !in rooms {
        if mode == SpectatorMode {
          out := [Emit(Caller, Error(RoomDoesNotExist))];
          return;
        }
        rooms := rooms[code := Room([Player(caller, name)], {}, Start, [])];
        order := order + [code];
        out := [Emit(Caller, PlayerColor(White))];
      } else {
        var room := rooms[code];
        if mode == SpectatorMode {
          room := room.(spectators := room.spectators + {caller});
          rooms := rooms[code := room];
          out := [Emit(Caller, GameState(engine.fen(room.game))), Emit(ToRoom(code), SpectatorCount(|room.spectators|))];
          var replay := ReplayMessages(room.messages);
          out := out + replay;
        } else {
          if |room.players| < 2 {
            room := room.(players := room.players + [Player(caller, name)]);
            rooms := rooms[code := room];
            out := [ Emit(Caller, PlayerColor(Black)), Emit(RoomExceptCaller(code), OpponentJoined(name))
                   , Emit(ToRoom(code), GameState(engine.fen(room.game))), Emit(ToRoom(code), SpectatorCount(|room.spectators|))];
            var replay := ReplayMessages(room.messages);
            out := out + replay;
          } else {
            out := [Emit(Caller, Error(RoomIsFull))];
            return;
          }
        }
      }
      out := out + [Emit(ToRoom(code), SpectatorCount(|rooms[code].spectators|))];
    }

    /** The `move` handler; `mv` is passed to the engine untouched. */
    method Move(caller: string, code: string, mv: ChessMove) returns (out: seq<Emit>)
      requires Valid()
      modifies this
      ensures Valid() && order == old(order)
      ensures code !in old(rooms) ==> rooms == old(rooms) && out == []
      ensures code in old(rooms) && ApplyMove(engine, old(rooms)[code].game, mv).None? ==>
        rooms == old(rooms) && out == [Emit(Caller, Error(InvalidMove))]
      ensures code in old(rooms) && ApplyMove(engine, old(rooms)[code].game, mv).Some? ==>
        var g := ApplyMove(engine, old(rooms)[code].game, mv).value;
        var status := engine.status(g);
        && rooms == old(rooms)[code := old(rooms)[code].(game := g)]
        && out == [Emit(ToRoom(code), GameState(engine.fen(g)))]
                  + (if status.IsGameOver() then [Emit(ToRoom(code), GameOver(GameOverText(status, Turn(g))))] else [])
    {
      if code in rooms {
        var room := rooms[code];
        var next := ApplyMove(engine, room.game, mv);
        if next.Some? {
          rooms := rooms[code := room.(game := next.value)];
          out := [Emit(ToRoom(code), GameState(engine.fen(next.value)))];
          var status := engine.status(next.value);
          if status.IsGameOver() {
            var text := "";
            if status == Checkmate {
              text := "Checkmate! " + ColorName(Opponent(Turn(next.value))) + " wins!";
            } else if status == Draw {
              text := DrawText;
            }
            out := out + [Emit(ToRoom(code), GameOver(text))];
          }
        } else {
          out := [Emit(Caller, Error(InvalidMove))];
        }
      } else {
        out := [];
      }
    }

    /** The `resetGame` handler: any socket may reset any existing room. */
    method ResetGame(code: string) returns (out: seq<Emit>)
      requires Valid()
      modifies this
      ensures Valid() && order == old(order)
      ensures code !in old(rooms) ==> rooms == old(rooms) && out == []
      ensures code in old(rooms) ==>
        && rooms == old(rooms)[code := old(rooms)[code].(game := Start)]
        && out == [Emit(ToRoom(code), GameState(engine.fen(Start)))]
    {
      if code in rooms {
        rooms := rooms[code := rooms[code].(game := Start)];
        out := [Emit(ToRoom(code), GameState(engine.fen(Start)))];
      } else {
        out := [];
      }
    }

    /** The `sendMessage` handler: store and broadcast a message unless its id is known. */
    method SendMessage(code: string, message: Chat.ChatMessage) returns (out: seq<Emit>)
      requires Valid()
      modifies this
      ensures Valid() && order == old(order)
      ensures code !in old(rooms) ==> rooms == old(rooms) && out == []
      ensures code in old(rooms) && Chat.HasId(old(rooms)[code].messages, message.id) ==>
        rooms == old(rooms) && out == []
      ensures code in old(rooms) && !Chat.HasId(old(rooms)[code].messages, message.id) ==>
        && rooms == old(rooms)[code := old(rooms)[code].(messages := old(rooms)[code].messages + [message])]
        && out == [Emit(ToRoom(code), ChatEvent(message))]
    {
      out := [];
      if code in rooms {
        var room := rooms[code];
        if !Chat.HasId(room.messages, message.id) {
          assert Chat.Receive(room.messages, message) == room.messages + [message];
          rooms := rooms[code := room.(messages := room.messages + [message])];
          out := [Emit(ToRoom(code), ChatEvent(message))];
        }
      }
    }

    /** The `disconnect` handler: visit the rooms in insertion order and leave the
        first one in which the socket holds a seat or, failing that, watches. */
    method Disconnect(caller: string) returns (out: seq<Emit>)
      requires Valid()
      modifies this
      ensures Valid()
      ensures
        var k := FirstMember(old(order), old(rooms), caller);
        if k == |old(order)| then
          // not a participant anywhere: nothing changes
          rooms == old(rooms) && order == old(order) && out == []
        else
          // only the first room found is touched; it is dropped once empty
          var c := old(order)[k];
          var d := Leave(c, old(rooms)[c], caller);
          && out == d.out
          && (d.room.Some? ==> rooms == old(rooms)[c := d.room.value] && order == old(order))
          && (d.room.None? ==> rooms == old(rooms) - {c} && order == old(order)[..k] + old(order)[k + 1..])
    {
      out := [];
      var k := 0;
      while k < |order|
        invariant 0 <= k <= |order|
        invariant rooms == old(rooms) && order == old(order)
        invariant forall j :: 0 <= j < k ==> !IsMember(rooms[order[j]], caller)
      {
        var c := order[k];
        var room := rooms[c];
        if IsMember(room, caller) {
          FirstMemberIsUnique(order, rooms, caller, k);
          var d := Leave(c, room, caller);
          out := d.out;
          if d.room.Some? {
            RegistryUpdate(rooms, order, c, d.room.value);
            rooms := rooms[c := d.room.value];
          } else {
            RegistryRemove(rooms, order, k);
            rooms := rooms - {c};
            order := order[..k] + order[k + 1..];
          }
          return;
        }
        k := k + 1;
      }
      FirstMemberIsUnique(order, rooms, caller, k);
    }
  }

  // ---------------------------------------------------------------------
  // Scenarios: sequences of events and what the sockets are told
  // ---------------------------------------------------------------------

  /** A fresh registry in which Alice has created AB12 and Bob has taken the second seat. */
  method SeatAliceAndBob(engine: Engine) returns (co: Coordinator, alice: seq<Emit>, bob: seq<Emit>)
    ensures fresh(co) && co.Valid() && co.engine == engine && co.order == ["AB12"]
    ensures co.rooms == map["AB12" := Room([Player("s1", "Alice"), Player("s2", "Bob")], {}, Start, [])]
    ensures alice == [Emit(Caller, PlayerColor(White)), Emit(ToRoom("AB12"), SpectatorCount(0))]
    ensures |bob| >= 2 && bob[0] == Emit(Caller, PlayerColor(Black))
    ensures bob[1] == Emit(RoomExceptCaller("AB12"), OpponentJoined("Bob"))
  {
    co := new Coordinator(engine);
    alice := co.JoinRoom("s1", "AB12", "Alice", "player");
    assert co.rooms == map["AB12" := Room([Player("s1", "Alice")], {}, Start, [])];
    bob := co.JoinRoom("s2", "AB12", "Bob", "player");
    assert [Player("s1", "Alice")] + [Player("s2", "Bob")] == [Player("s1", "Alice"), Player("s2", "Bob")];
    assert co.rooms.Keys == {"AB12"};
    assert co.rooms["AB12"] == Room([Player("s1", "Alice"), Player("s2", "Bob")], {}, Start, []);
  }

  /** Alice creates AB12, Bob takes the second seat, Carl is turned away and
      the seats stay with Alice and Bob. */
  method RoomFullScenario(engine: Engine) returns (alice: seq<Emit>, bob: seq<Emit>, carl: seq<Emit>, seats: seq<Player>)
    ensures alice == [Emit(Caller, PlayerColor(White)), Emit(ToRoom("AB12"), SpectatorCount(0))]
    ensures |bob| >= 2 && bob[0] == Emit(Caller, PlayerColor(Black))
    ensures bob[1] == Emit(RoomExceptCaller("AB12"), OpponentJoined("Bob"))
    ensures carl == [Emit(Caller, Error(RoomIsFull))]
    ensures seats == [Player("s1", "Alice"), Player("s2", "Bob")]
  {
    var co;
    co, alice, bob := SeatAliceAndBob(engine);
    carl := co.JoinRoom("s3", "AB12", "Carl", "player");
    seats := co.rooms["AB12"].players;
  }

  /** A spectator naming an unknown room is told so, and no room appears. */
  method UnknownRoomScenario(engine: Engine) returns (out: seq<Emit>, codes: set<string>)
    ensures out == [Emit(Caller, Error(RoomDoesNotExist))]
    ensures codes == {}
  {
    var co := new Coordinator(engine);
    out := co.JoinRoom("s1", "ZZ99", "Eve", SpectatorMode);
    codes := co.rooms.Keys;
  }

  /** A room whose last participant leaves is gone; joining its code again
      starts afresh: white, the starting position and no chat history, although
      the old room had a move played and a message stored. */
  method RejoinScenario(engine: Engine, mv: ChessMove, m: Chat.ChatMessage) returns (before: Room, out: seq<Emit>, room: Room)
    requires engine.legal(Start, mv)
    ensures before.game != Start && before.messages == [m]
    ensures out == [Emit(Caller, PlayerColor(White)), Emit(ToRoom("AB12"), SpectatorCount(0))]
    ensures room == Room([Player("s2", "Bob")], {}, Start, [])
  {
    var co := new Coordinator(engine);
    var _ := co.JoinRoom("s1", "AB12", "Alice", "player");
    var _ := co.SendMessage("AB12", m);
    var _ := co.Move("s1", "AB12", mv);
    before := co.rooms["AB12"];
    assert before.game == Game([mv]);
    assert co.order == ["AB12"] && co.rooms["AB12"].players[0].id == "s1";
    assert FirstMember(co.order, co.rooms, "s1") == 0;
    var left := co.Disconnect("s1");
    assert "AB12" !in co.rooms;
    out := co.JoinRoom("s2", "AB12", "Bob", "player");
    room := co.rooms["AB12"];
  }

  /** Seat colours are not remembered: after the white player leaves, the next
      player is told black as well, so both seated players were told black. */
  method SecondBlackScenario(engine: Engine) returns (bob: seq<Emit>, carl: seq<Emit>, seats: seq<Player>)
    ensures |bob| > 0 && bob[0] == Emit(Caller, PlayerColor(Black))
    ensures |carl| > 0 && carl[0] == Emit(Caller, PlayerColor(Black))
    ensures seats == [Player("s2", "Bob"), Player("s3", "Carl")]
  {
    var co, alice;
    co, alice, bob := SeatAliceAndBob(engine);
    var r := co.rooms["AB12"];
    assert r.players[0].id == "s1" && FindPlayer(r.players, "s1") == 0;
    assert FirstMember(co.order, co.rooms, "s1") == 0;
    var _ := co.Disconnect("s1");
    assert co.rooms["AB12"].players == [Player("s2", "Bob")];
    carl := co.JoinRoom("s3", "AB12", "Carl", "player");
    seats := co.rooms["AB12"].players;
  }
}
