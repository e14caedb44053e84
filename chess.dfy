// Shared vocabulary: optional values, colours, pieces and board squares.

module Wrappers {
  /** A value that may be absent (the source's `null` / `undefined`). */
  datatype Option<+T> = None | Some(value: T)
}

module Chess {
  import opened Wrappers

  datatype Color = White | Black

  function Opponent(c: Color): (o: Color)
    ensures o != c
  {
    if c == White then Black else White
  }

  datatype PieceKind = Pawn | Knight | Bishop | Rook | Queen | King

  datatype Piece = Piece(kind: PieceKind, color: Color)

  /** Index of a file letter in `FILES` = "abcdefgh". */
  type FileIndex = f: int | 0 <= f < 8

  /** The numeric value of a rank digit, 1 to 8. */
  type RankNumber = r: int | 1 <= r <= 8 witness 1

  datatype Square = Square(file: FileIndex, rank: RankNumber)

  function FileLetter(f: FileIndex): char
  {
    ('a' as int + f) as char
  }

  function RankDigit(r: RankNumber): char
  {
    ('0' as int + r) as char
  }

  /** The square's algebraic name, such as "e4": the source's `Square` string. */
  function Name(sq: Square): (s: string)
    ensures |s| == 2
    ensures 'a' <= s[0] <= 'h' && '1' <= s[1] <= '8'
  {
    [FileLetter(sq.file), RankDigit(sq.rank)]
  }

  /** Distinct squares have distinct names. */
  lemma NameInjective(a: Square, b: Square)
    ensures Name(a) == Name(b) <==> a == b
  {
    if Name(a) == Name(b) {
      assert Name(a)[0] == Name(b)[0] && Name(a)[1] == Name(b)[1];
    }
  }

  /** The second character of a name is the digit of rank `r` exactly on rank `r`. */
  lemma NameRank(sq: Square, r: RankNumber)
    ensures Name(sq)[1] == RankDigit(r) <==> sq.rank == r
  {
  }

  /** The first character of a name is the letter of file `f` exactly on file `f`. */
  lemma NameFile(sq: Square, f: FileIndex)
    ensures Name(sq)[0] == FileLetter(f) <==> sq.file == f
  {
  }

  /** Reading a square of a board: the piece standing there, if any. */
  function PieceAt(board: map<Square, Piece>, sq: Square): (p: Option<Piece>)
    ensures p.Some? <==> sq in board
    ensures p.Some? ==> p.value == board[sq]
  {
    if sq in board then Some(board[sq]) else None
  }
}
