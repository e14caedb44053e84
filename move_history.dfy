// The move list (src/components/chess/MoveHistory.tsx): history entries are
// grouped into numbered rows of a white move and an optional black move.

module MoveHistory {
  import opened Wrappers
  import opened ChessEngine

  datatype MovePair = MovePair(number: nat, white: Option<Entry>, black: Option<Entry>)

  /** Row `k` holds moves `2k` and, when it exists, `2k + 1`, and is numbered `k + 1`. */
  ghost predicate IsPairAt(p: MovePair, moves: seq<Entry>, k: nat)
  {
    && p.number == k + 1
    && 2 * k < |moves|
    && p.white == Some(moves[2 * k])
    && p.black == (if 2 * k + 1 < |moves| then Some(moves[2 * k + 1]) else None)
  }

  /** `pairs` is the grouping of `moves`: ceil(n / 2) rows, row by row as above. */
  ghost predicate IsPairing(pairs: seq<MovePair>, moves: seq<Entry>)
  {
    && |pairs| == (|moves| + 1) / 2
    && forall k :: 0 <= k < |pairs| ==> IsPairAt(pairs[k], moves, k)
  }

  /** The `movePairs` loop: `i` runs over the even indices. */
  method MovePairs(moves: seq<Entry>) returns (pairs: seq<MovePair>)
    ensures IsPairing(pairs, moves)
  {
    pairs := [];
    var i := 0;
    while i < |moves|
      invariant i == 2 * |pairs| && i <= |moves| + 1
      invariant forall k :: 0 <= k < |pairs| ==> IsPairAt(pairs[k], moves, k)
    {
      var black := if i + 1 < |moves| then Some(moves[i + 1]) else None;
      pairs := pairs + [MovePair(i / 2 + 1, Some(moves[i]), black)];
      i := i + 2;
    }
  }

  function Cells(o: Option<Entry>): seq<Entry>
  {
    if o.Some? then [o.value] else []
  }

  /** Reading the rows back: each row's white move, then its black move. */
  function Unpair(pairs: seq<MovePair>): seq<Entry>
  {
    if |pairs| == 0 then []
    else Unpair(pairs[..|pairs| - 1]) + Cells(pairs[|pairs| - 1].white) + Cells(pairs[|pairs| - 1].black)
  }

  lemma {:induction false} UnpairPrefix(pairs: seq<MovePair>, moves: seq<Entry>, j: nat)
    requires IsPairing(pairs, moves) && j <= |pairs|
    ensures Unpair(pairs[..j]) == moves[..if 2 * j <= |moves| then 2 * j else |moves|]
  {
    if j > 0 {
      UnpairPrefix(pairs, moves, j - 1);
      assert pairs[..j][..j - 1] == pairs[..j - 1];
      assert IsPairAt(pairs[j - 1], moves, j - 1);
      var lo := 2 * (j - 1);
      if 2 * j <= |moves| {
        assert moves[..2 * j] == moves[..lo] + [moves[lo]] + [moves[lo + 1]];
      } else {
        assert moves[..|moves|] == moves[..lo] + [moves[lo]];
      }
    }
  }

  /** Concatenating the rows' moves in order gives back the move list. */
  lemma UnpairRoundTrip(pairs: seq<MovePair>, moves: seq<Entry>)
    requires IsPairing(pairs, moves)
    ensures Unpair(pairs) == moves
  {
    UnpairPrefix(pairs, moves, |pairs|);
    assert pairs[..|pairs|] == pairs;
    assert moves[..|moves|] == moves;
  }

  /** Only the last row can lack a black move, and it does exactly when the move count is odd. */
  lemma MissingBlackOnlyLast(pairs: seq<MovePair>, moves: seq<Entry>, k: nat)
    requires IsPairing(pairs, moves) && k < |pairs|
    ensures pairs[k].white.Some?
    ensures pairs[k].black.None? <==> k == |pairs| - 1 && |moves| % 2 == 1
  {
    assert IsPairAt(pairs[k], moves, k);
  }

  /** `formatMove`: a move is shown by its algebraic notation as the library wrote it. */
  function FormatMove(move: Entry): (s: string)
    ensures s == move.san
  {
    move.san
  }

  datatype Row = Row(number: nat, white: string, black: string, highlighted: bool)

  datatype HistoryView = NoMovesYet | Rows(rows: seq<Row>)

  /** The rendered list: a placeholder when empty, otherwise one row per pair with the last one highlighted. */
  function RenderHistory(pairs: seq<MovePair>): (h: HistoryView)
    ensures h == NoMovesYet <==> pairs == []
    ensures h.Rows? ==> |h.rows| == |pairs|
    ensures h.Rows? ==> forall idx :: 0 <= idx < |pairs| ==>
      && h.rows[idx].number == pairs[idx].number
      && h.rows[idx].white == (if pairs[idx].white.Some? then pairs[idx].white.value.san else "...")
      && h.rows[idx].black == (if pairs[idx].black.Some? then pairs[idx].black.value.san else "")
      && (h.rows[idx].highlighted <==> idx == |pairs| - 1)
  {
    if |pairs| == 0 then NoMovesYet
    else
      Rows(seq(|pairs|, idx requires 0 <= idx < |pairs| =>
        Row(pairs[idx].number,
            if pairs[idx].white.Some? then FormatMove(pairs[idx].white.value) else "...",
            if pairs[idx].black.Some? then FormatMove(pairs[idx].black.value) else "",
            idx == |pairs| - 1)))
  }
}
