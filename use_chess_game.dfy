// The game-state hook (src/hooks/useChessGame.ts): one engine instance, the
// selection, the last move and a snapshot that is re-derived from the engine
// after every mutation. The hook is a class whose methods run to completion
// (React's batching and closures are not modelled); each mutating method is
// tied to a pure step function on `HookView`, about which the lemmas speak.

module UseChessGame {
  import opened Wrappers
  import opened Chess
  import opened ChessEngine

  datatype LastMove = LastMove(from: Square, to: Square)

  /** Piece kinds captured by each side, in history order. */
  datatype Captured = Captured(white: seq<PieceKind>, black: seq<PieceKind>)

  datatype GameState = GameState(
    turn: Color,
    isCheck: bool,
    isCheckmate: bool,
    isStalemate: bool,
    isDraw: bool,
    isGameOver: bool,
    moveHistory: seq<Entry>,
    capturedPieces: Captured,
    lastMove: Option<LastMove>)

  // ---------------------------------------------------------------------------
  // Captured pieces: derived from the history, never tracked separately.

  /** The capture markers of the entries played by `side`, in history order. */
  function CapturedBy(history: seq<Entry>, side: Color): seq<PieceKind>
  {
    if |history| == 0 then []
    else
      var e := history[|history| - 1];
      CapturedBy(history[..|history| - 1], side)
        + (if e.captured.Some? && e.color == side then [e.captured.value] else [])
  }

  function CapturedPieces(history: seq<Entry>): Captured
  {
    Captured(CapturedBy(history, White), CapturedBy(history, Black))
  }

  /** Number of history entries that carry a capture marker. */
  function CaptureCount(history: seq<Entry>): nat
  {
    if |history| == 0 then 0
    else CaptureCount(history[..|history| - 1]) + (if history[|history| - 1].captured.Some? then 1 else 0)
  }

  /** `getCapturedPieces`: one pass over the history, pushing each marker onto its side's list. */
  method GetCapturedPieces(history: seq<Entry>) returns (captured: Captured)
    ensures captured == CapturedPieces(history)
  {
    captured := Captured([], []);
    var i := 0;
    while i < |history|
      invariant 0 <= i <= |history|
      invariant captured == CapturedPieces(history[..i])
    {
      var move := history[i];
      assert history[..i + 1][..i] == history[..i];
      if move.captured.Some? {
        if move.color == White {
          captured := captured.(white := captured.white + [move.captured.value]);
        } else {
          captured := captured.(black := captured.black + [move.captured.value]);
        }
      }
      i := i + 1;
    }
    assert history[..i] == history;
  }

  /** A piece kind is in `side`'s list iff some entry played by `side` captured it. */
  lemma {:induction false} CapturedByMembership(history: seq<Entry>, side: Color, k: PieceKind)
    ensures k in CapturedBy(history, side) <==>
      exists i :: 0 <= i < |history| && history[i].color == side && history[i].captured == Some(k)
  {
    if |history| > 0 {
      var n := |history| - 1;
      var init := history[..n];
      CapturedByMembership(init, side, k);
      if k in CapturedBy(history, side) && k !in CapturedBy(init, side) {
        assert history[n].color == side && history[n].captured == Some(k);
      }
      if exists i :: 0 <= i < |history| && history[i].color == side && history[i].captured == Some(k) {
        var i :| 0 <= i < |history| && history[i].color == side && history[i].captured == Some(k);
        if i < n {
          assert init[i] == history[i];
        }
      }
    }
  }

  /** Appending moves appends their captures: each list follows history order. */
  lemma {:induction false} CapturedByAppend(h1: seq<Entry>, h2: seq<Entry>, side: Color)
    ensures CapturedBy(h1 + h2, side) == CapturedBy(h1, side) + CapturedBy(h2, side)
  {
    if |h2| == 0 {
      assert h1 + h2 == h1;
    } else {
      var n := |h2| - 1;
      var e := h2[n];
      var tail := if e.captured.Some? && e.color == side then [e.captured.value] else [];
      assert (h1 + h2)[..|h1 + h2| - 1] == h1 + h2[..n];
      assert (h1 + h2)[|h1 + h2| - 1] == e;
      CapturedByAppend(h1, h2[..n], side);
      calc {
        CapturedBy(h1 + h2, side);
        CapturedBy(h1 + h2[..n], side) + tail;
        CapturedBy(h1, side) + CapturedBy(h2[..n], side) + tail;
        CapturedBy(h1, side) + (CapturedBy(h2[..n], side) + tail);
        CapturedBy(h1, side) + CapturedBy(h2, side);
      }
    }
  }

  /** Entries without a marker contribute nothing: the two lists together hold one kind per capture. */
  lemma {:induction false} CapturedTotal(history: seq<Entry>)
    ensures |CapturedBy(history, White)| + |CapturedBy(history, Black)| == CaptureCount(history)
  {
    if |history| > 0 {
      CapturedTotal(history[..|history| - 1]);
    }
  }

  // ---------------------------------------------------------------------------
  // The snapshot.

  /** `getGameState`: every field read from the engine; its own `lastMove` slot is always null. */
  function GetGameState(g: Engine): (s: GameState)
    ensures s.moveHistory == g.history && s.turn == Turn(g) && s.lastMove == None
    ensures s.capturedPieces.white == CapturedBy(g.history, White)
    ensures s.capturedPieces.black == CapturedBy(g.history, Black)
  {
    GameState(g.current.turn, g.current.isCheck, g.current.isCheckmate, g.current.isStalemate,
              g.current.isDraw, g.current.isGameOver, g.history, CapturedPieces(g.history), None)
  }

  /** The `(from, to)` of the last history entry, or null on an empty history. */
  function LastOf(history: seq<Entry>): (m: Option<LastMove>)
    ensures m.None? <==> history == []
  {
    if |history| == 0 then None
    else Some(LastMove(history[|history| - 1].from, history[|history| - 1].to))
  }

  // ---------------------------------------------------------------------------
  // The hook's state as a value, and one step function per operation.

  datatype HookView = HookView(
    game: Engine,
    selectedSquare: Option<Square>,
    legalMoves: seq<Square>,
    lastMove: Option<LastMove>)

  /** The hook's invariant: the last move mirrors the engine's history, and legal moves imply a selection. */
  predicate Inv(v: HookView)
  {
    && v.lastMove == LastOf(v.game.history)
    && (v.selectedSquare.None? ==> v.legalMoves == [])
  }

  predicate IsOwnPiece(g: Engine, sq: Square)
  {
    var p := Get(g, sq);
    p.Some? && p.value.color == Turn(g)
  }

  /** `selectSquare` */
  function SelectStep(rules: Rules, v: HookView, sq: Square): (r: (bool, HookView))
    ensures r.0 <==> IsOwnPiece(v.game, sq)
    ensures r.1.game == v.game && r.1.lastMove == v.lastMove
    ensures r.0 ==> r.1.selectedSquare == Some(sq) && r.1.legalMoves == Moves(rules, v.game, sq)
    ensures !r.0 && v.selectedSquare.Some? && sq in v.legalMoves ==> r.1 == v
    ensures !r.0 && !(v.selectedSquare.Some? && sq in v.legalMoves) ==>
      r.1.selectedSquare == None && r.1.legalMoves == []
  {
    if IsOwnPiece(v.game, sq) then
      (true, v.(selectedSquare := Some(sq), legalMoves := Moves(rules, v.game, sq)))
    else if v.selectedSquare.Some? && sq in v.legalMoves then
      (false, v)
    else
      (false, v.(selectedSquare := None, legalMoves := []))
  }

  /** The promotion actually requested: `promotion || 'q'`. */
  function PromotionOrQueen(promotion: Option<PieceKind>): (k: PieceKind)
    ensures promotion.None? ==> k == Queen
    ensures promotion.Some? ==> k == promotion.value
  {
    if promotion.Some? then promotion.value else Queen
  }

  /** `makeMove` */
  function MoveStep(rules: Rules, v: HookView, from: Square, to: Square, promotion: Option<PieceKind>): (r: (bool, HookView))
    ensures r.0 <==> Move(rules, v.game, from, to, PromotionOrQueen(promotion)).Some?
    ensures r.0 ==> r.1 == HookView(Move(rules, v.game, from, to, PromotionOrQueen(promotion)).value,
                                    None, [], Some(LastMove(from, to)))
    ensures r.0 ==> |r.1.game.history| == |v.game.history| + 1 && r.1.lastMove == LastOf(r.1.game.history)
    ensures !r.0 ==> r.1 == v
  {
    match Move(rules, v.game, from, to, PromotionOrQueen(promotion))
    case None => (false, v)
    case Some(g) => (true, HookView(g, None, [], Some(LastMove(from, to))))
  }

  /** `undoMove` */
  function UndoStep(v: HookView): (r: HookView)
    ensures r.game == Undo(v.game)
    ensures r.lastMove == LastOf(Undo(v.game).history)
    ensures r.selectedSquare == None && r.legalMoves == []
    ensures v.game.history == [] ==> r.game == v.game && r.lastMove == None
  {
    var g := Undo(v.game);
    HookView(g, None, [], LastOf(g.history))
  }

  /** `newGame` */
  function NewGameStep(rules: Rules): (r: HookView)
    ensures r.game == Fresh(rules) && r.game.history == []
    ensures r.selectedSquare == None && r.legalMoves == [] && r.lastMove == None
  {
    HookView(Fresh(rules), None, [], None)
  }

  lemma SelectStepKeepsInv(rules: Rules, v: HookView, sq: Square)
    requires Inv(v)
    ensures Inv(SelectStep(rules, v, sq).1)
  {
  }

  lemma MoveStepKeepsInv(rules: Rules, v: HookView, from: Square, to: Square, promotion: Option<PieceKind>)
    requires Inv(v)
    ensures Inv(MoveStep(rules, v, from, to, promotion).1)
  {
  }

  lemma UndoStepKeepsInv(v: HookView)
    ensures Inv(UndoStep(v))
  {
  }

  lemma NewGameStepKeepsInv(rules: Rules)
    ensures Inv(NewGameStep(rules))
  {
  }

  /** Undo after a successful move restores the engine and the last move; only the selection is lost. */
  lemma UndoAfterMoveStep(rules: Rules, v: HookView, from: Square, to: Square, promotion: Option<PieceKind>)
    requires Inv(v)
    requires MoveStep(rules, v, from, to, promotion).0
    ensures UndoStep(MoveStep(rules, v, from, to, promotion).1) == v.(selectedSquare := None, legalMoves := [])
  {
    UndoAfterMove(rules, v.game, from, to, PromotionOrQueen(promotion));
  }

  /** The library is the only judge of legality; when it rejects every move outside `moves()`... */
  ghost predicate RejectsIllegal(rules: Rules)
  {
    forall p, from, to, k :: rules.play(p, from, to, k).Some? ==> to in rules.destinations(p, from)
  }

  /** ...a move to a square outside the legal set fails and changes nothing. */
  lemma IllegalMoveChangesNothing(rules: Rules, v: HookView, from: Square, to: Square, promotion: Option<PieceKind>)
    requires RejectsIllegal(rules)
    requires to !in Moves(rules, v.game, from)
    ensures MoveStep(rules, v, from, to, promotion) == (false, v)
  {
    assert rules.play(v.game.current, from, to, PromotionOrQueen(promotion)).None?;
  }

  // ---------------------------------------------------------------------------
  // The hook object.

  class GameHook {
    const rules: Rules
    var game: Engine
    var gameState: GameState
    var selectedSquare: Option<Square>
    var legalMoves: seq<Square>
    var moveHistory: seq<Entry>
    var lastMove: Option<LastMove>

    ghost function View(): HookView
      reads this
    {
      HookView(game, selectedSquare, legalMoves, lastMove)
    }

    /** The stored snapshot is `getGameState(game)` apart from its (stale) `lastMove` copy. */
    ghost predicate Valid()
      reads this
    {
      && Inv(View())
      && moveHistory == game.history
      && gameState.(lastMove := None) == GetGameState(game)
    }

    /** `useChessGame()` on mount: a fresh engine and the mount effect's snapshot. */
    constructor (rules: Rules)
      ensures Valid() && this.rules == rules
      ensures View() == HookView(Fresh(rules), None, [], None)
    {
      this.rules := rules;
      game := Fresh(rules);
      selectedSquare := None;
      legalMoves := [];
      lastMove := None;
      moveHistory := [];
      gameState := GetGameState(Fresh(rules));
    }

    /** `updateGameState`: re-derive the snapshot and the mirrored history; `stale` is the closure's lastMove. */
    method UpdateGameState(stale: Option<LastMove>)
      modifies this
      ensures gameState == GetGameState(game).(lastMove := stale) && moveHistory == game.history
      ensures View() == old(View())
    {
      var captured := GetCapturedPieces(game.history);
      gameState := GameState(game.current.turn, game.current.isCheck, game.current.isCheckmate,
                             game.current.isStalemate, game.current.isDraw, game.current.isGameOver,
                             game.history, captured, stale);
      moveHistory := game.history;
    }

    /** The snapshot the hook exposes: the stored one with `lastMove` taken from the field. */
    function GameStateNow(): (s: GameState)
      reads this
      requires Valid()
      ensures s.lastMove == lastMove == LastOf(game.history)
      ensures s.turn == Turn(game) && s.moveHistory == game.history
      ensures s.capturedPieces == CapturedPieces(game.history)
    {
      gameState.(lastMove := lastMove)
    }

    /** `canUndo` */
    function CanUndo(): (b: bool)
      reads this
      requires Valid()
      ensures b <==> game.history != []
    {
      |moveHistory| > 0
    }

    /** `getPieceAt` */
    function GetPieceAt(sq: Square): (p: Option<Piece>)
      reads this
      ensures p.Some? <==> sq in game.current.board
      ensures p.Some? ==> p.value == game.current.board[sq]
    {
      Get(game, sq)
    }

    method SelectSquare(sq: Square) returns (selected: bool)
      requires Valid()
      modifies this
      ensures Valid() && gameState == old(gameState)
      ensures (selected, View()) == SelectStep(rules, old(View()), sq)
    {
      var piece := Get(game, sq);
      if piece.Some? && piece.value.color == Turn(game) {
        selectedSquare := Some(sq);
        legalMoves := Moves(rules, game, sq);
        return true;
      }
      if selectedSquare.Some? && sq in legalMoves {
        return false;
      }
      selectedSquare := None;
      legalMoves := [];
      return false;
    }

    method MakeMove(from: Square, to: Square, promotion: Option<PieceKind>) returns (ok: bool)
      requires Valid()
      modifies this
      ensures Valid()
      ensures (ok, View()) == MoveStep(rules, old(View()), from, to, promotion)
      ensures !ok ==> gameState == old(gameState)
    {
      var moved := Move(rules, game, from, to, PromotionOrQueen(promotion));
      if moved.Some? {
        var stale := lastMove;
        game := moved.value;
        lastMove := Some(LastMove(from, to));
        selectedSquare := None;
        legalMoves := [];
        UpdateGameState(stale);
        return true;
      }
      return false;
    }

    method NewGame()
      requires Valid()
      modifies this
      ensures Valid()
      ensures View() == NewGameStep(rules)
    {
      var stale := lastMove;
      game := Fresh(rules);
      selectedSquare := None;
      legalMoves := [];
      lastMove := None;
      UpdateGameState(stale);
    }

    method UndoMove()
      requires Valid()
      modifies this
      ensures Valid()
      ensures View() == UndoStep(old(View()))
    {
      var stale := lastMove;
      game := Undo(game);
      var history := game.history;
      lastMove := if |history| > 0 then Some(LastMove(history[|history| - 1].from, history[|history| - 1].to)) else None;
      selectedSquare := None;
      legalMoves := [];
      UpdateGameState(stale);
    }
  }
}
