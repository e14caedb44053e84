// The rules library (chess.js) as an oracle. Nothing here re-derives chess
// rules: the start position, the legal destinations of a square and the
// outcome of a move request are supplied by a `Rules` value. What is fixed
// is the shape of the library's behaviour that the adapter depends on: a
// successful move appends one history entry recording the requested squares
// and the mover's colour, a failed request changes nothing, and undo pops
// exactly one move (doing nothing on an empty history).

module ChessEngine {
  import opened Wrappers
  import opened Chess

  /** One entry of `history({ verbose: true })`. */
  datatype Entry = Entry(from: Square, to: Square, color: Color, captured: Option<PieceKind>, san: string)

  /** What the library knows about the current position (the FEN string is not modelled). */
  datatype Position = Position(
    board: map<Square, Piece>,
    turn: Color,
    isCheck: bool,
    isCheckmate: bool,
    isStalemate: bool,
    isDraw: bool,
    isGameOver: bool)

  /** The library's verdict on a legal move: what it captured, its SAN and the position after it. */
  datatype Played = Played(captured: Option<PieceKind>, san: string, next: Position)

  /** The chess rules, left abstract. `play` answers None for a move the library rejects or throws on. */
  datatype Rules = Rules(
    start: Position,
    destinations: (Position, Square) -> seq<Square>,
    play: (Position, Square, Square, PieceKind) -> Option<Played>)

  datatype EngineState = EngineState(current: Position, past: seq<Position>, history: seq<Entry>)

  /** An engine instance: one saved position per history entry, so that undo can restore it. */
  type Engine = e: EngineState | |e.past| == |e.history|
    witness EngineState(Position(map[], White, false, false, false, false, false), [], [])

  /** `new Chess()` and `reset()`: the start position with an empty history. */
  function Fresh(rules: Rules): (g: Engine)
    ensures g.current == rules.start && g.history == []
  {
    EngineState(rules.start, [], [])
  }

  /** `turn()` */
  function Turn(g: Engine): Color
  {
    g.current.turn
  }

  /** `get(square)` */
  function Get(g: Engine, sq: Square): Option<Piece>
  {
    PieceAt(g.current.board, sq)
  }

  /** `moves({ square, verbose: true }).map(m => m.to)` (may repeat a square, one per promotion choice). */
  function Moves(rules: Rules, g: Engine, sq: Square): seq<Square>
  {
    rules.destinations(g.current, sq)
  }

  /** `move({ from, to, promotion })`: None when the library rejects the move. */
  function Move(rules: Rules, g: Engine, from: Square, to: Square, promotion: PieceKind): (r: Option<Engine>)
    ensures r.None? <==> rules.play(g.current, from, to, promotion).None?
    ensures r.Some? ==>
      && |r.value.history| == |g.history| + 1
      && r.value.history[..|g.history|] == g.history
      && var e := r.value.history[|g.history|];
         e.from == from && e.to == to && e.color == Turn(g)
  {
    match rules.play(g.current, from, to, promotion)
    case None => None
    case Some(p) =>
      Some(EngineState(p.next, g.past + [g.current],
                       g.history + [Entry(from, to, g.current.turn, p.captured, p.san)]))
  }

  /** `undo()`: drops the last history entry and restores the position before it. */
  function Undo(g: Engine): (r: Engine)
    ensures g.history == [] ==> r == g
    ensures g.history != [] ==> r.history == g.history[..|g.history| - 1]
  {
    if |g.history| == 0 then g
    else EngineState(g.past[|g.past| - 1], g.past[..|g.past| - 1], g.history[..|g.history| - 1])
  }

  /** Undoing a successful move gives back the engine exactly as it was before the move. */
  lemma UndoAfterMove(rules: Rules, g: Engine, from: Square, to: Square, promotion: PieceKind)
    requires Move(rules, g, from, to, promotion).Some?
    ensures Undo(Move(rules, g, from, to, promotion).value) == g
  {
    var h := Move(rules, g, from, to, promotion).value;
    assert h.past[..|h.past| - 1] == g.past;
    assert h.history[..|h.history| - 1] == g.history;
  }
}
