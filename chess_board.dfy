// The board controller (src/components/chess/ChessBoard.tsx): it turns a tap
// on a square into exactly one of "start a promotion", "move", or "select /
// clear", confirms or cancels a pending promotion, and emits sound events.
// Sounds are modelled as an event log; the delayed check sound is not modelled.

module ChessBoard {
  import opened Wrappers
  import opened Chess
  import opened ChessEngine
  import opened UseChessGame
  import opened ChessSquare

  datatype Sound = MoveSound | CaptureSound | IllegalMoveSound

  datatype PendingPromotion = PendingPromotion(from: Square, to: Square)

  // ---------------------------------------------------------------------------
  // Square colours.

  /** `isLightSquare`: file index plus rank number is odd, so exactly one of the two is odd. */
  predicate IsLightSquare(sq: Square): (light: bool)
    ensures light <==> (sq.file % 2 == 1) != (sq.rank % 2 == 1)
  {
    (sq.file + sq.rank) % 2 == 1
  }

  /** Neighbours along a file or a rank have opposite colours. */
  lemma AdjacentOpposite(a: Square, b: Square)
    requires (a.file == b.file && (a.rank - b.rank == 1 || b.rank - a.rank == 1))
          || (a.rank == b.rank && (a.file - b.file == 1 || b.file - a.file == 1))
    ensures IsLightSquare(a) <==> !IsLightSquare(b)
  {
  }

  /** Under this formula a1 is light and h1 is dark (the reverse of the usual board convention). */
  lemma CornerColours()
    ensures IsLightSquare(Square(0, 1)) && !IsLightSquare(Square(7, 1))
    ensures !IsLightSquare(Square(0, 8)) && IsLightSquare(Square(7, 8))
  {
  }

  // ---------------------------------------------------------------------------
  // Promotion rank and the king scan.

  /** The destination's rank character is '8' for a white piece or '1' for a black one: its last rank. */
  predicate IsPromotionRank(moving: Piece, sq: Square): (b: bool)
    ensures b <==> sq.rank == (if moving.color == White then 8 else 1)
  {
    NameRank(sq, 8);
    NameRank(sq, 1);
    (moving.color == White && Name(sq)[1] == '8') || (moving.color == Black && Name(sq)[1] == '1')
  }

  predicate IsKingOf(board: map<Square, Piece>, sq: Square, side: Color)
  {
    var p := PieceAt(board, sq);
    p.Some? && p.value.kind == King && p.value.color == side
  }

  /** Position of a square in the scan: files a to h, and within a file ranks 8 down to 1. */
  function ScanIndex(sq: Square): (i: int)
    ensures 0 <= i < 64
  {
    sq.file * 8 + (8 - sq.rank)
  }

  /** `getKingSquare`: the first square in scan order holding the king of `turn`, or null. */
  method GetKingSquare(board: map<Square, Piece>, turn: Color) returns (r: Option<Square>)
    ensures r.Some? ==> IsKingOf(board, r.value, turn)
    ensures r.Some? ==> forall sq :: IsKingOf(board, sq, turn) ==> ScanIndex(r.value) <= ScanIndex(sq)
    ensures r.None? ==> forall sq :: !IsKingOf(board, sq, turn)
  {
    var file := 0;
    while file < 8
      invariant 0 <= file <= 8
      invariant forall sq :: IsKingOf(board, sq, turn) ==> file * 8 <= ScanIndex(sq)
    {
      var i := 0;
      while i < 8
        invariant 0 <= i <= 8
        invariant forall sq :: IsKingOf(board, sq, turn) ==> file * 8 + i <= ScanIndex(sq)
      {
        var sq := Square(file, 8 - i);
        var piece := PieceAt(board, sq);
        if piece.Some? && piece.value.kind == King && piece.value.color == turn {
          return Some(sq);
        }
        i := i + 1;
      }
      file := file + 1;
    }
    return None;
  }

  /** `kingSquare`: the king is looked for only while the side to move is in check. */
  method CheckedKingSquare(board: map<Square, Piece>, turn: Color, isCheck: bool) returns (r: Option<Square>)
    ensures !isCheck ==> r == None
    ensures r.Some? ==> isCheck && IsKingOf(board, r.value, turn)
    ensures r.Some? ==> forall sq :: IsKingOf(board, sq, turn) ==> ScanIndex(r.value) <= ScanIndex(sq)
    ensures isCheck && r.None? ==> forall sq :: !IsKingOf(board, sq, turn)
  {
    if isCheck {
      r := GetKingSquare(board, turn);
    } else {
      r := None;
    }
  }

  // ---------------------------------------------------------------------------
  // What each square is told to draw.

  /** The props handed to each `ChessSquare`: `view` is the hook, `lastMove` the exposed one.
      The source compares square names (`selectedSquare === square`); comparing squares by value
      is the same test, because names are injective (`Chess.NameInjective`). */
  function PropsFor(v: HookView, kingSquare: Option<Square>, sq: Square): (p: SquareProps)
    ensures p.square == sq && p.piece == Get(v.game, sq)
    ensures p.isLight <==> IsLightSquare(sq)
    ensures p.isSelected <==> v.selectedSquare == Some(sq)
    ensures p.isLegalMove <==> sq in v.legalMoves
    ensures p.isLastMove <==> v.lastMove.Some? && (v.lastMove.value.from == sq || v.lastMove.value.to == sq)
    ensures p.isCheck <==> kingSquare == Some(sq)
  {
    SquareProps(sq, Get(v.game, sq), IsLightSquare(sq), v.selectedSquare == Some(sq), sq in v.legalMoves,
                (v.lastMove.Some? && v.lastMove.value.from == sq) || (v.lastMove.Some? && v.lastMove.value.to == sq),
                kingSquare == Some(sq))
  }

  /** With the hook's invariant, the two squares of the last history entry are the ones marked. */
  lemma LastMoveMarksHistory(v: HookView, kingSquare: Option<Square>, sq: Square)
    requires Inv(v)
    ensures PropsFor(v, kingSquare, sq).isLastMove <==>
      v.game.history != [] && (v.game.history[|v.game.history| - 1].from == sq || v.game.history[|v.game.history| - 1].to == sq)
  {
  }

  // ---------------------------------------------------------------------------
  // Taps and the promotion dialog as steps on a value.

  datatype BoardView = BoardView(hook: HookView, promotionMove: Option<PendingPromotion>, sounds: seq<Sound>)

  /** A tap moves when something is selected and the square is one of its legal destinations. */
  predicate IsMoveTap(v: HookView, sq: Square)
  {
    v.selectedSquare.Some? && sq in v.legalMoves
  }

  /** A move tap that waits for a promotion choice: a pawn reaching its last rank. */
  predicate IsPromotionTap(v: HookView, sq: Square)
  {
    && IsMoveTap(v, sq)
    && var moving := Get(v.game, v.selectedSquare.value);
       moving.Some? && moving.value.kind == Pawn && IsPromotionRank(moving.value, sq)
  }

  /** The sound after a move: a capture when the destination was occupied before it. */
  function MoveSoundFor(target: Option<Piece>): (s: Sound)
    ensures s == CaptureSound <==> target.Some?
    ensures s == MoveSound <==> target.None?
  {
    if target.Some? then CaptureSound else MoveSound
  }

  /** `handleSquareClick` */
  function TapStep(rules: Rules, b: BoardView, sq: Square): (r: BoardView)
    ensures IsPromotionTap(b.hook, sq) ==>
      r == b.(promotionMove := Some(PendingPromotion(b.hook.selectedSquare.value, sq)))
    ensures IsMoveTap(b.hook, sq) && !IsPromotionTap(b.hook, sq) ==>
      var (ok, v) := MoveStep(rules, b.hook, b.hook.selectedSquare.value, sq, None);
      && r.hook == v && r.promotionMove == b.promotionMove
      && r.sounds == b.sounds + (if ok then [MoveSoundFor(Get(b.hook.game, sq))] else [])
    ensures !IsMoveTap(b.hook, sq) ==>
      var (selected, v) := SelectStep(rules, b.hook, sq);
      var piece := Get(b.hook.game, sq);
      && r.hook == v && r.promotionMove == b.promotionMove
      && r.sounds == b.sounds +
           (if !selected && piece.Some? && piece.value.color != Turn(b.hook.game) then [IllegalMoveSound] else [])
  {
    var v := b.hook;
    var piece := Get(v.game, sq);
    if IsMoveTap(v, sq) then
      var from := v.selectedSquare.value;
      if IsPromotionTap(v, sq) then
        b.(promotionMove := Some(PendingPromotion(from, sq)))
      else
        var target := Get(v.game, sq);
        var (ok, v') := MoveStep(rules, v, from, sq, None);
        b.(hook := v', sounds := b.sounds + (if ok then [MoveSoundFor(target)] else []))
    else
      var (selected, v') := SelectStep(rules, v, sq);
      b.(hook := v', sounds := b.sounds + (if !selected && piece.Some? && piece.value.color != Turn(v.game) then [IllegalMoveSound] else []))
  }

  /** A tap emits at most one sound, appended to the log. */
  lemma TapEmitsAtMostOneSound(rules: Rules, b: BoardView, sq: Square)
    ensures var r := TapStep(rules, b, sq);
      |b.sounds| <= |r.sounds| <= |b.sounds| + 1 && r.sounds[..|b.sounds|] == b.sounds
  {
  }

  /** Tapping an opponent's piece with nothing selected: one illegal-move cue and nothing else changes. */
  lemma TapOpponentPieceIdle(rules: Rules, b: BoardView, sq: Square)
    requires Inv(b.hook) && b.hook.selectedSquare.None?
    requires Get(b.hook.game, sq).Some? && Get(b.hook.game, sq).value.color != Turn(b.hook.game)
    ensures TapStep(rules, b, sq) == b.(sounds := b.sounds + [IllegalMoveSound])
  {
  }

  /** Tapping an empty square or one's own piece is always silent. */
  lemma TapSilentUnlessOpponent(rules: Rules, b: BoardView, sq: Square)
    requires !IsMoveTap(b.hook, sq)
    requires Get(b.hook.game, sq).None? || Get(b.hook.game, sq).value.color == Turn(b.hook.game)
    ensures TapStep(rules, b, sq).sounds == b.sounds
  {
  }

  /** The choices the promotion dialog offers: q, r, b, n. */
  predicate IsPromotionChoice(k: PieceKind)
  {
    k == Queen || k == Rook || k == Bishop || k == Knight
  }

  /** `handlePromotion` */
  function PromotionStep(rules: Rules, b: BoardView, choice: PieceKind): (r: BoardView)
    requires IsPromotionChoice(choice)
    ensures b.promotionMove.None? ==> r == b
    ensures b.promotionMove.Some? ==>
      var p := b.promotionMove.value;
      && r.hook == MoveStep(rules, b.hook, p.from, p.to, Some(choice)).1
      && r.promotionMove == None
      && r.sounds == b.sounds + [MoveSoundFor(Get(b.hook.game, p.to))]
  {
    match b.promotionMove
    case None => b
    case Some(p) =>
      var target := Get(b.hook.game, p.to);
      var (_, v) := MoveStep(rules, b.hook, p.from, p.to, Some(choice));
      BoardView(v, None, b.sounds + [MoveSoundFor(target)])
  }

  /** The dialog's `onClose` */
  function CloseStep(b: BoardView): (r: BoardView)
    ensures r.promotionMove == None && r.hook == b.hook && r.sounds == b.sounds
  {
    b.(promotionMove := None)
  }

  /** Whatever the taps and choices, the hook's invariant is kept. */
  lemma TapStepKeepsInv(rules: Rules, b: BoardView, sq: Square)
    requires Inv(b.hook)
    ensures Inv(TapStep(rules, b, sq).hook)
  {
    if IsMoveTap(b.hook, sq) && !IsPromotionTap(b.hook, sq) {
      MoveStepKeepsInv(rules, b.hook, b.hook.selectedSquare.value, sq, None);
    } else if !IsMoveTap(b.hook, sq) {
      SelectStepKeepsInv(rules, b.hook, sq);
    }
  }

  lemma PromotionStepKeepsInv(rules: Rules, b: BoardView, choice: PieceKind)
    requires Inv(b.hook) && IsPromotionChoice(choice)
    ensures Inv(PromotionStep(rules, b, choice).hook)
  {
    if b.promotionMove.Some? {
      MoveStepKeepsInv(rules, b.hook, b.promotionMove.value.from, b.promotionMove.value.to, Some(choice));
    }
  }

  // ---------------------------------------------------------------------------
  // The board object.

  class Board {
    const hook: GameHook
    var promotionMove: Option<PendingPromotion>
    var sounds: seq<Sound>

    ghost predicate Valid()
      reads this, hook
    {
      hook.Valid()
    }

    ghost function View(): BoardView
      reads this, hook
    {
      BoardView(hook.View(), promotionMove, sounds)
    }

    constructor (hook: GameHook)
      requires hook.Valid()
      ensures Valid() && this.hook == hook
      ensures View() == BoardView(hook.View(), None, [])
    {
      this.hook := hook;
      promotionMove := None;
      sounds := [];
    }

    method HandleSquareClick(sq: Square)
      requires Valid()
      modifies this, hook
      ensures Valid()
      ensures View() == TapStep(hook.rules, old(View()), sq)
    {
      ghost var b := View();
      var piece := hook.GetPieceAt(sq);
      if hook.selectedSquare.Some? && sq in hook.legalMoves {
        var from := hook.selectedSquare.value;
        var movingPiece := hook.GetPieceAt(from);
        if movingPiece.Some? && movingPiece.value.kind == Pawn {
          var isPromotionRank :=
            (movingPiece.value.color == White && Name(sq)[1] == '8') ||
            (movingPiece.value.color == Black && Name(sq)[1] == '1');
          if isPromotionRank {
            assert IsPromotionTap(b.hook, sq);
            promotionMove := Some(PendingPromotion(from, sq));
            return;
          }
        }
        assert IsMoveTap(b.hook, sq) && !IsPromotionTap(b.hook, sq);
        var targetPiece := hook.GetPieceAt(sq);
        MoveTap(from, sq, targetPiece);
        return;
      }
      assert !IsMoveTap(b.hook, sq);
      var turn := hook.GameStateNow().turn;
      var selected := hook.SelectSquare(sq);
      if !selected && piece.Some? && piece.value.color != turn {
        sounds := sounds + [IllegalMoveSound];
      }
    }

    /** The move branch of a tap: one `makeMove`, then a sound if it succeeded. */
    method MoveTap(from: Square, to: Square, targetPiece: Option<Piece>)
      requires Valid() && targetPiece == hook.GetPieceAt(to)
      modifies this, hook
      ensures Valid() && promotionMove == old(promotionMove)
      ensures var (ok, v) := MoveStep(hook.rules, old(hook.View()), from, to, None);
        hook.View() == v && sounds == old(sounds) + (if ok then [MoveSoundFor(targetPiece)] else [])
    {
      var success := hook.MakeMove(from, to, None);
      if success {
        if targetPiece.Some? {
          sounds := sounds + [CaptureSound];
        } else {
          sounds := sounds + [MoveSound];
        }
      }
    }

    method HandlePromotion(choice: PieceKind)
      requires Valid() && IsPromotionChoice(choice)
      modifies this, hook
      ensures Valid()
      ensures View() == PromotionStep(hook.rules, old(View()), choice)
    {
      if promotionMove.Some? {
        var p := promotionMove.value;
        var targetPiece := hook.GetPieceAt(p.to);
        var _ := hook.MakeMove(p.from, p.to, Some(choice));
        if targetPiece.Some? {
          sounds := sounds + [CaptureSound];
        } else {
          sounds := sounds + [MoveSound];
        }
        promotionMove := None;
      }
    }

    method ClosePromotionDialog()
      requires Valid()
      modifies this
      ensures Valid()
      ensures View() == CloseStep(old(View()))
    {
      promotionMove := None;
    }
  }
}
