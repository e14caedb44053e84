# Chess-Mate board logic in Dafny

This project models the small layer of rules that the Chess-Mate web app puts
around its chess rules library. The library decides legality, check, mate,
draw and notation. The app decides only the steps around it:

- which square is selected and which destinations are highlighted;
- what a tap on a square does: start a promotion, move, select, or clear;
- what the last move is, and the captured pieces each side has taken;
- which sound event is emitted;
- how the move list, the status line, the captured pieces, each board cell and
  the players' names are presented.

The rules library is an oracle (`ChessEngine`). A `Rules` value supplies three
things:

- the start position;
- the legal destinations of a square;
- the verdict on a move request.

The engine state is a value: the current position, one saved position per
history entry, and the history. A successful move appends one entry that
records the requested squares and the mover's colour. A rejected move changes
nothing. Undo pops one move, and does nothing when the history is empty. These
are the only facts about the library that the model relies on. The one exception
is `IllegalMoveChangesNothing`, which alone also assumes that a move outside
`moves()` is rejected (`RejectsIllegal`).

Modules, one per source file:

- `UseChessGame` (src/hooks/useChessGame.ts). The class `GameHook` holds the
  engine, the stored snapshot, the selection, the legal moves, the mirrored
  history and the last move. Each mutating method is tied to a pure step
  function on `HookView`: `SelectStep`, `MoveStep`, `UndoStep`, `NewGameStep`.
  The object invariant `Valid` makes the snapshot and the captured lists derived
  from the engine, never tracked separately. It also keeps `lastMove` equal to
  the last history entry, and allows legal moves only while a square is
  selected.
- `ChessBoard` (src/components/chess/ChessBoard.tsx). The class `Board` holds
  the pending promotion and the sound log. Its methods are tied to `TapStep`,
  `PromotionStep` and `CloseStep`. The module also holds square colours, the
  promotion-rank test, the king scan and the props each cell receives.
- `ChessSquare`, `MoveHistory`, `GameInfo` and `PlayerNameInput` are the pure
  presentation rules of the files with those names.
- `Chess` and `Wrappers` hold the shared types. A square is a file index and a
  rank number. Its string name (`Name`) is used where the source inspects
  characters of the square name, as in `square[1] === '8'`.

Notes on the source:

- `isLightSquare` makes a1 light and h1 dark. That is the reverse of the usual
  board convention. The model keeps the formula as written (`CornerColours`).
- The stored snapshot's own `lastMove` is the value from before the call
  (useChessGame.ts:76). The hook overrides it at line 153, so only the exposed
  value (`GameStateNow`) carries the current last move.
- A tap while a promotion is pending leaves the promotion pending. Only a
  choice or closing the dialog clears it. The model follows the code here.
  In the running page this case does not arise from the board: while the
  dialog is open, its full-screen backdrop (PromotionDialog.tsx:24-30) lies
  over the board, and a click on it closes the dialog, which is `CloseStep`.
- `makeMove` always passes `'q'` when no promotion is given, whatever the move
  is. The model follows this too.

## Model

| member | source | states |
|---|---|---|
| UseChessGame.GetCapturedPieces | src/hooks/useChessGame.ts:57-72 | the loop builds exactly the two derived capture lists of the history |
| UseChessGame.CapturedByMembership | src/hooks/useChessGame.ts:61-69 | a kind is in a side's list iff some entry of that colour captured it |
| UseChessGame.CapturedByAppend | src/hooks/useChessGame.ts:57-72 | the lists follow history order: the captures of a concatenation are the concatenated captures |
| UseChessGame.CapturedTotal | src/hooks/useChessGame.ts:61-69 | entries without a marker add nothing; the two lengths sum to the number of capturing entries |
| UseChessGame.GetGameState | src/hooks/useChessGame.ts:41-55 | the snapshot's turn, history and captured lists are read from the engine; its own lastMove slot is null |
| UseChessGame.LastOf | src/hooks/useChessGame.ts:134-136 | the last entry's squares, null exactly on an empty history |
| UseChessGame.SelectStep | src/hooks/useChessGame.ts:81-101 | true iff the square holds a piece of the side to move, which then becomes the selection with the engine's destinations, even over an earlier selection; false with nothing changed on a legal destination of the selection; otherwise false and cleared; the engine and last move never change |
| UseChessGame.PromotionOrQueen | src/hooks/useChessGame.ts:108 | a missing promotion is sent as a queen |
| UseChessGame.MoveStep | src/hooks/useChessGame.ts:103-122 | true iff the engine accepts the move; on success the engine has one more history entry, lastMove = (from, to) is that entry, and the selection is cleared; on failure the state is unchanged |
| UseChessGame.UndoStep | src/hooks/useChessGame.ts:132-140 | the engine undoes one move, lastMove is the new last entry or null, the selection is cleared; an empty history leaves the engine as it was |
| UseChessGame.NewGameStep | src/hooks/useChessGame.ts:124-130 | a fresh engine with an empty history, no selection, no legal moves, no last move |
| UseChessGame.SelectStepKeepsInv | src/hooks/useChessGame.ts:81-101 | selecting keeps lastMove equal to the last entry, and legal moves only with a selection |
| UseChessGame.MoveStepKeepsInv | src/hooks/useChessGame.ts:103-122 | a move keeps the hook invariant |
| UseChessGame.UndoStepKeepsInv | src/hooks/useChessGame.ts:132-140 | undo re-establishes the hook invariant |
| UseChessGame.NewGameStepKeepsInv | src/hooks/useChessGame.ts:124-130 | a new game satisfies the hook invariant |
| UseChessGame.UndoAfterMoveStep | src/hooks/useChessGame.ts:103-140 | undo right after a successful move restores the engine and the last move exactly; only the selection is lost |
| UseChessGame.IllegalMoveChangesNothing | src/hooks/useChessGame.ts:103-122 | if the library rejects moves outside its legal set, a move to such a square returns false and changes nothing |
| UseChessGame.GameHook.constructor | src/hooks/useChessGame.ts:34-39 | a fresh engine, nothing selected, no last move, and the snapshot the mount effect derives |
| UseChessGame.GameHook.UpdateGameState | src/hooks/useChessGame.ts:74-79 | the stored snapshot is re-derived from the engine with the stale closure lastMove, and the history is mirrored |
| UseChessGame.GameHook.GameStateNow | src/hooks/useChessGame.ts:151-153 | the exposed snapshot carries the field lastMove, which equals the last history entry, and the engine's turn and captures |
| UseChessGame.GameHook.CanUndo | src/hooks/useChessGame.ts:160 | true iff the engine's history is non-empty |
| UseChessGame.GameHook.GetPieceAt | src/hooks/useChessGame.ts:142-145 | the piece on the square, or null when it is empty |
| UseChessGame.GameHook.SelectSquare | src/hooks/useChessGame.ts:81-101 | result and new state are those of SelectStep; the invariant and the snapshot are kept |
| UseChessGame.GameHook.MakeMove | src/hooks/useChessGame.ts:103-122 | result and new state are those of MoveStep; the snapshot is re-derived; a failure leaves the snapshot as it was |
| UseChessGame.GameHook.NewGame | src/hooks/useChessGame.ts:124-130 | the new state is NewGameStep's, with the invariant kept |
| UseChessGame.GameHook.UndoMove | src/hooks/useChessGame.ts:132-140 | the new state is UndoStep's, with the invariant kept |
| ChessBoard.AdjacentOpposite | src/components/chess/ChessBoard.tsx:28-32 | squares next to each other along a file or a rank have opposite colours |
| ChessBoard.CornerColours | src/components/chess/ChessBoard.tsx:28-32 | under the formula a1 and h8 are light, h1 and a8 dark |
| ChessBoard.IsLightSquare | src/components/chess/ChessBoard.tsx:28-32 | a square is light iff exactly one of its file index and rank number is odd |
| ChessBoard.IsPromotionRank | src/components/chess/ChessBoard.tsx:43-45 | the character test on the square name holds iff the destination is rank 8 for white or rank 1 for black |
| ChessBoard.GetKingSquare | src/components/chess/ChessBoard.tsx:105-116 | returns a square holding the mover's king that comes first in the a-to-h, 8-to-1 scan; null iff there is no such square |
| ChessBoard.CheckedKingSquare | src/components/chess/ChessBoard.tsx:118 | no check highlight without check; with check, the mover's king that comes first in scan order, or null iff there is none |
| ChessBoard.PropsFor | src/components/chess/ChessBoard.tsx:126-132 | each cell is light by the parity rule, selected iff it is the selection, a legal move iff in legalMoves, last move iff it is lastMove's from or to, check iff it is the king square |
| ChessBoard.LastMoveMarksHistory | src/components/chess/ChessBoard.tsx:131 | under the hook invariant the marked squares are the from and to of the last history entry |
| ChessBoard.MoveSoundFor | src/components/chess/ChessBoard.tsx:56-61 | a capture sound iff the destination was occupied before the move, a move sound otherwise |
| ChessBoard.TapStep | src/components/chess/ChessBoard.tsx:34-90 | on a pawn move to its last rank, a pending promotion (selected, square) with no move and no sound; on another legal destination, one makeMove with a move or capture sound only if it succeeds; otherwise selectSquare, with the illegal sound iff it fails on a piece of the side not to move |
| ChessBoard.TapEmitsAtMostOneSound | src/components/chess/ChessBoard.tsx:34-90 | a tap appends at most one sound event and keeps earlier events |
| ChessBoard.TapOpponentPieceIdle | src/components/chess/ChessBoard.tsx:73-77 | with nothing selected, tapping an opponent's piece emits exactly one illegal-move cue and changes nothing else |
| ChessBoard.TapSilentUnlessOpponent | src/components/chess/ChessBoard.tsx:73-77 | a non-move tap on an empty square or one's own piece is silent |
| ChessBoard.PromotionStep | src/components/chess/ChessBoard.tsx:92-103 | with nothing pending, nothing happens; otherwise makeMove with the choice, a sound by prior occupancy even if the move fails, and the promotion cleared |
| ChessBoard.CloseStep | src/components/chess/ChessBoard.tsx:156 | closing the dialog clears the pending promotion and nothing else |
| ChessBoard.TapStepKeepsInv | src/components/chess/ChessBoard.tsx:34-90 | taps keep the hook invariant |
| ChessBoard.PromotionStepKeepsInv | src/components/chess/ChessBoard.tsx:92-103 | promotion choices keep the hook invariant |
| ChessBoard.Board.constructor | src/components/chess/ChessBoard.tsx:25-26 | no pending promotion and an empty sound log |
| ChessBoard.Board.HandleSquareClick | src/components/chess/ChessBoard.tsx:34-90 | the new board and hook state are TapStep's |
| ChessBoard.Board.MoveTap | src/components/chess/ChessBoard.tsx:53-62 | one makeMove, then a capture or move sound only on success |
| ChessBoard.Board.HandlePromotion | src/components/chess/ChessBoard.tsx:92-103 | the new board and hook state are PromotionStep's, for a choice the dialog offers |
| ChessBoard.Board.ClosePromotionDialog | src/components/chess/ChessBoard.tsx:156 | the new state is CloseStep's |
| Chess.NameInjective | src/components/chess/ChessBoard.tsx:126 | distinct squares have distinct names |
| MoveHistory.MovePairs | src/components/chess/MoveHistory.tsx:19-27 | ceil(n/2) pairs; pair k is numbered k+1, holds moves[2k] as white and moves[2k+1] as black when that index exists |
| MoveHistory.UnpairPrefix | src/components/chess/MoveHistory.tsx:21-26 | the first j pairs read back the first min(2j, n) moves |
| MoveHistory.UnpairRoundTrip | src/components/chess/MoveHistory.tsx:19-27 | the white then black moves of the pairs, in order, are the move list |
| MoveHistory.MissingBlackOnlyLast | src/components/chess/MoveHistory.tsx:21-26 | every pair has a white move; a pair lacks a black move iff it is the last one and n is odd |
| MoveHistory.FormatMove | src/components/chess/MoveHistory.tsx:29-31 | a move is shown by its algebraic notation |
| MoveHistory.RenderHistory | src/components/chess/MoveHistory.tsx:40-58 | the placeholder iff there are no pairs; otherwise one row per pair showing the moves' san, and exactly the last row highlighted |
| GameInfo.StatusText | src/components/chess/GameInfo.tsx:15-23 | checkmate names the player not to move as winner; then stalemate, draw, check; with no flag, the mover's turn |
| GameInfo.StatusPriority | src/components/chess/GameInfo.tsx:15-23 | a raised flag decides the text whatever the lower flags are |
| GameInfo.CheckmateNamesWinner | src/components/chess/GameInfo.tsx:16-18 | with distinct player names, the checkmate text differs when the side to move differs, so it tells who won |
| GameInfo.StatusStyle | src/components/chess/GameInfo.tsx:49-51 | exactly one banner style: accent on checkmate, destructive on check without mate, secondary otherwise |
| GameInfo.OrderIndexInjective | src/components/chess/GameInfo.tsx:26 | different kinds have different places in the q, r, b, n, p order |
| GameInfo.SortCaptured | src/components/chess/GameInfo.tsx:26-27 | the sorted copy holds exactly the input pieces |
| GameInfo.SortCapturedProps | src/components/chess/GameInfo.tsx:26-27 | the displayed list is a permutation of the input, ordered q, r, b, n, p |
| GameInfo.SortedPermutationUnique | src/components/chess/GameInfo.tsx:26-27 | two ordered permutations of the same pieces are equal, so any correct sort shows the same list |
| GameInfo.PlayerPanel | src/components/chess/GameInfo.tsx:60-88 | highlighted iff it is that side's turn and the game is not over; shows that side's captures sorted, drawn in the opponent's colour |
| ChessSquare.GetSquareClass | src/components/chess/ChessSquare.tsx:28-33 | check beats selected beats last move; with none of them, light iff isLight |
| ChessSquare.SquareClassPriority | src/components/chess/ChessSquare.tsx:28-33 | flags below the highest raised one do not affect the class |
| ChessSquare.IndicatorsExclusive | src/components/chess/ChessSquare.tsx:46-63 | the dot (legal and empty) and the ring (legal and occupied) never both show, and one of them shows exactly on a legal move |
| ChessSquare.RenderedPiece | src/components/chess/ChessSquare.tsx:66 | a piece is drawn iff the square has one |
| ChessSquare.FileLabel | src/components/chess/ChessSquare.tsx:80-86 | the file letter label appears iff the rank is 1 |
| ChessSquare.RankLabel | src/components/chess/ChessSquare.tsx:88-94 | the rank digit label appears iff the file is a |
| PlayerNameInput.LeadingEnd | src/components/chess/PlayerNameInput.tsx:17 | the index of the first non-whitespace character, with only whitespace before it |
| PlayerNameInput.TrailingStart | src/components/chess/PlayerNameInput.tsx:17 | the index just past the last non-whitespace character, with only whitespace after it |
| PlayerNameInput.Trim | src/components/chess/PlayerNameInput.tsx:17-18 | a slice of the input between whitespace-only ends, with no whitespace at either end; empty iff the input is all whitespace |
| PlayerNameInput.PlayerName | src/components/chess/PlayerNameInput.tsx:17-18 | the default for an empty or all-whitespace input, otherwise the trimmed input, which is non-empty |
| PlayerNameInput.HandleStart | src/components/chess/PlayerNameInput.tsx:16-19 | each name depends only on its own field, defaults to 'White' or 'Black', and is never empty |

## Left out

- Chess rules (legality, move generation, check, mate, stalemate, draw, FEN, SAN) come from the chess.js library, which is not part of this model. They are the abstract `Rules` oracle. The FEN field of the snapshot is not modelled.
- A move request that chess.js rejects by throwing, and one it rejects by returning null, are both `None` from the oracle. `makeMove` treats them the same.
- `makeMove`'s promotion argument is an optional piece kind. An empty promotion string, which `promotion || 'q'` also turns into a queen, has no separate representation.
- `isLightSquare` takes the file letter and rank digit as strings. The model computes it from the square's file index and rank number, which are `FILES.indexOf` and `parseInt` of those strings.
- Audio (src/hooks/useChessSounds.ts) is floating-point tone synthesis. Sounds are named events appended to a log.
- The delayed check sound (ChessBoard.tsx:64-68) is not modelled: it is asynchronous audio sequencing. Its timer reads `gameHook.gameState` through the closure of the click handler, which holds the snapshot from before the move (useChessGame.ts:153 builds a new snapshot on each render). So the cue follows the pre-move `isCheck`: an escape from check still plays it, and a move that gives check does not.
- The game-over sound and its sound toggle (ChessGame.tsx:35) are not modelled.
- React is not modelled: state batching, `useCallback` dependencies and render closures. The hook and the board are sequential objects whose methods run to completion. The mount effect (useChessGame.ts:147-149) is folded into the constructor.
- The Chess object that the hook returns as `game` is shared by reference in the source. The model keeps the engine as a value owned by the hook, so that aliasing is not modelled.
- UI composition is not modelled: ChessGame.tsx, GameControls.tsx, piece graphics, animations, hover scaling, the label text colours (ChessSquare.tsx:82-83, 90-91) and the scroll effect (MoveHistory.tsx:13-17). PromotionDialog.tsx appears only through its choice set q, r, b, n, as the precondition of `HandlePromotion`. Its `isOpen` and `color` props are not modelled.
- The `onChange` setters of the name fields are plumbing and are not modelled.
- GameInfo.SortCaptured: its own contract states that the copy is a permutation of the input. The q, r, b, n, p ordering is stated by `SortCapturedProps`, which keeps that proof apart from the function.
