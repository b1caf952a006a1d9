/**
  The chess rules engine (chess.js) as the room coordinator sees it.

  The coordinator never looks inside a position: it asks the engine whether a
  move is legal, how a position stands (checkmate, draw, some other end, or
  still ongoing) and what its FEN text is. Those three questions are left as
  function values in `Engine`, so every property proved about the coordinator
  holds for ANY engine that answers them.
*/
module ChessEngine {
  import opened Wrappers

  datatype Color = White | Black

  function Opponent(c: Color): (o: Color)
    ensures o != c
  {
    if c == White then Black else White
  }

  /** How the engine classifies a position: checkmate, else draw, else over for
      some other reason (OtherEnd), else still ongoing. */
  datatype Status = Ongoing | Checkmate | Draw | OtherEnd
  {
    predicate IsGameOver() { !Ongoing? }
  }

  /** The move a client sends: source square, target square and promotion piece. */
  datatype ChessMove = ChessMove(from: string, to: string, promotion: string)

  /** A game started from the standard position is determined by the moves accepted on it. */
  datatype Game = Game(moves: seq<ChessMove>)

  /** A new game: the standard starting position, no moves played. */
  const Start: Game := Game([])

  /** The engine's answers: legality of a move in a game (a rejected move is
      one the engine throws on), the status of a game, and its FEN text. */
  datatype Engine = Engine(legal: (Game, ChessMove) -> bool, status: Game -> Status, fen: Game -> string)

  /** The side to move: white moves first and every accepted move passes the
      turn, so it is white exactly after an even number of moves. */
  function Turn(g: Game): (c: Color)
    ensures c == (if |g.moves| % 2 == 0 then White else Black)
    decreases |g.moves|
  {
    if g.moves == [] then White
    else Opponent(Turn(Game(g.moves[..|g.moves| - 1])))
  }

  /** Playing a move: None when the engine rejects it, otherwise the game with
      the move played; the turn passes to the other side. */
  function ApplyMove(e: Engine, g: Game, m: ChessMove): (r: Option<Game>)
    ensures r.Some? <==> e.legal(g, m)
    ensures r.Some? ==> g.moves < r.value.moves && |r.value.moves| == |g.moves| + 1
    ensures r.Some? ==> Turn(r.value) == Opponent(Turn(g))
  {
    if e.legal(g, m) then Some(Game(g.moves + [m])) else None
  }
}
