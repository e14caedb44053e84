// One board cell (src/components/chess/ChessSquare.tsx): which highlight
// class it gets, which move indicator it draws, whether it draws a piece and
// which coordinate labels it carries. Animation and styling are not modelled.

module ChessSquare {
  import opened Wrappers
  import opened Chess

  datatype SquareProps = SquareProps(
    square: Square,
    piece: Option<Piece>,
    isLight: bool,
    isSelected: bool,
    isLegalMove: bool,
    isLastMove: bool,
    isCheck: bool)

  /** The CSS classes `chess-square-check`, `-selected`, `-last-move`, `-light` and `-dark`. */
  datatype SquareClass = CheckClass | SelectedClass | LastMoveClass | LightClass | DarkClass

  /** `getSquareClass`: check beats selection beats last move beats the square's own colour. */
  function GetSquareClass(p: SquareProps): (c: SquareClass)
    ensures c == CheckClass <==> p.isCheck
    ensures c == SelectedClass <==> !p.isCheck && p.isSelected
    ensures c == LastMoveClass <==> !p.isCheck && !p.isSelected && p.isLastMove
    ensures c == LightClass <==> !p.isCheck && !p.isSelected && !p.isLastMove && p.isLight
    ensures c == DarkClass <==> !p.isCheck && !p.isSelected && !p.isLastMove && !p.isLight
  {
    if p.isCheck then CheckClass
    else if p.isSelected then SelectedClass
    else if p.isLastMove then LastMoveClass
    else if p.isLight then LightClass
    else DarkClass
  }

  /** The class depends on a lower-priority flag only when every higher one is off. */
  lemma SquareClassPriority(p: SquareProps, q: SquareProps)
    requires p.isCheck == q.isCheck
    requires !p.isCheck ==> p.isSelected == q.isSelected
    requires !p.isCheck && !p.isSelected ==> p.isLastMove == q.isLastMove
    requires !p.isCheck && !p.isSelected && !p.isLastMove ==> p.isLight == q.isLight
    ensures GetSquareClass(p) == GetSquareClass(q)
  {
  }

  /** The small dot drawn on an empty legal destination. */
  predicate ShowsMoveDot(p: SquareProps)
  {
    p.isLegalMove && p.piece.None?
  }

  /** The ring drawn on an occupied legal destination (a capture). */
  predicate ShowsCaptureRing(p: SquareProps)
  {
    p.isLegalMove && p.piece.Some?
  }

  /** At most one indicator is drawn, and exactly one on a legal destination. */
  lemma IndicatorsExclusive(p: SquareProps)
    ensures !(ShowsMoveDot(p) && ShowsCaptureRing(p))
    ensures p.isLegalMove <==> ShowsMoveDot(p) || ShowsCaptureRing(p)
  {
  }

  /** The piece drawn in the cell, if any. */
  function RenderedPiece(p: SquareProps): (r: Option<Piece>)
    ensures r.Some? <==> p.piece.Some?
    ensures r.Some? ==> r == p.piece
  {
    p.piece
  }

  /** The file letter drawn in the corner of every square on rank 1. */
  function FileLabel(p: SquareProps): (l: Option<char>)
    ensures l.Some? <==> p.square.rank == 1
    ensures l.Some? ==> l.value == FileLetter(p.square.file)
  {
    var name := Name(p.square);
    NameRank(p.square, 1);
    if name[1] == '1' then Some(name[0]) else None
  }

  /** The rank digit drawn in the corner of every square on file a. */
  function RankLabel(p: SquareProps): (l: Option<char>)
    ensures l.Some? <==> p.square.file == 0
    ensures l.Some? ==> l.value == RankDigit(p.square.rank)
  {
    var name := Name(p.square);
    NameFile(p.square, 0);
    if name[0] == 'a' then Some(name[1]) else None
  }
}
