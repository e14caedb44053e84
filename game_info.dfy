// The status panel (src/components/chess/GameInfo.tsx): the status line, the
// style of its banner, which player's panel is highlighted, and each side's
// captured pieces in a fixed kind order.

module GameInfo {
  import opened Wrappers
  import opened Chess
  import opened UseChessGame
  import opened PlayerNameInput

  function NameOf(names: PlayerNames, side: Color): string
  {
    if side == White then names.white else names.black
  }

  // ---------------------------------------------------------------------------
  // Status line.

  /** `getStatusText`: checkmate, then stalemate, then draw, then check, then whose turn it is. */
  function StatusText(s: GameState, names: PlayerNames): (t: string)
    ensures s.isCheckmate ==> t == "Checkmate! " + NameOf(names, Opponent(s.turn)) + " wins!"
    ensures !s.isCheckmate && s.isStalemate ==> t == "Stalemate - Draw!"
    ensures !s.isCheckmate && !s.isStalemate && s.isDraw ==> t == "Draw!"
    ensures !s.isCheckmate && !s.isStalemate && !s.isDraw && s.isCheck ==> t == "Check!"
    ensures !s.isCheckmate && !s.isStalemate && !s.isDraw && !s.isCheck ==> t == NameOf(names, s.turn) + "'s turn"
  {
    if s.isCheckmate then "Checkmate! " + (if s.turn == White then names.black else names.white) + " wins!"
    else if s.isStalemate then "Stalemate - Draw!"
    else if s.isDraw then "Draw!"
    else if s.isCheck then "Check!"
    else (if s.turn == White then names.white else names.black) + "'s turn"
  }

  /** A raised flag decides the text whatever the flags below it say. */
  lemma StatusPriority(s: GameState, t: GameState, names: PlayerNames)
    requires s.turn == t.turn && s.isCheckmate == t.isCheckmate
    requires !s.isCheckmate ==> s.isStalemate == t.isStalemate
    requires !s.isCheckmate && !s.isStalemate ==> s.isDraw == t.isDraw
    requires !s.isCheckmate && !s.isStalemate && !s.isDraw ==> s.isCheck == t.isCheck
    ensures StatusText(s, names) == StatusText(t, names)
  {
  }

  /** On checkmate the text names the winner: with distinct names, it tells which side won. */
  lemma CheckmateNamesWinner(s: GameState, names: PlayerNames)
    requires names.white != names.black
    ensures s.isCheckmate ==> StatusText(s, names) != StatusText(s.(turn := Opponent(s.turn)), names)
  {
    if s.isCheckmate {
      var t := StatusText(s, names);
      var u := StatusText(s.(turn := Opponent(s.turn)), names);
      assert t[11..|t| - 6] == NameOf(names, Opponent(s.turn));
      assert u[11..|u| - 6] == NameOf(names, s.turn);
    }
  }

  datatype BannerStyle = Accent | Destructive | Secondary

  /** The banner classes of the status line: exactly one of the three conditional classes applies. */
  function StatusStyle(s: GameState): (b: BannerStyle)
    ensures b == Accent <==> s.isCheckmate
    ensures b == Destructive <==> s.isCheck && !s.isCheckmate
    ensures b == Secondary <==> !s.isCheck && !s.isCheckmate
  {
    if s.isCheckmate then Accent
    else if s.isCheck then Destructive
    else Secondary
  }

  // ---------------------------------------------------------------------------
  // Captured pieces, ordered q, r, b, n, p.

  /** `pieceOrder.indexOf(kind)` for `pieceOrder = ['q', 'r', 'b', 'n', 'p']`; a king is not listed (-1). */
  function OrderIndex(k: PieceKind): int
  {
    match k
    case Queen => 0
    case Rook => 1
    case Bishop => 2
    case Knight => 3
    case Pawn => 4
    case King => -1
  }

  lemma OrderIndexInjective(a: PieceKind, b: PieceKind)
    ensures OrderIndex(a) == OrderIndex(b) <==> a == b
  {
  }

  ghost predicate SortedByOrder(s: seq<PieceKind>)
  {
    forall i, j :: 0 <= i < j < |s| ==> OrderIndex(s[i]) <= OrderIndex(s[j])
  }

  /** Places `x` in front of the first element that does not come before it. */
  function Insert(x: PieceKind, s: seq<PieceKind>): seq<PieceKind>
  {
    if s == [] then [x]
    else if OrderIndex(x) <= OrderIndex(s[0]) then [x] + s
    else [s[0]] + Insert(x, s[1..])
  }

  lemma SortedTail(s: seq<PieceKind>)
    requires SortedByOrder(s) && s != []
    ensures SortedByOrder(s[1..])
  {
    forall i, j | 0 <= i < j < |s[1..]|
      ensures OrderIndex(s[1..][i]) <= OrderIndex(s[1..][j])
    {
      assert s[1..][i] == s[i + 1] && s[1..][j] == s[j + 1];
    }
  }

  /** Neighbours are in order: the shape insertion works with. */
  ghost predicate Ordered(s: seq<PieceKind>)
  {
    |s| <= 1 || (OrderIndex(s[0]) <= OrderIndex(s[1]) && Ordered(s[1..]))
  }

  /** Neighbours in order means every pair in order. */
  lemma {:induction false} OrderedPairwise(s: seq<PieceKind>)
    requires Ordered(s)
    ensures SortedByOrder(s)
  {
    if |s| > 1 {
      OrderedPairwise(s[1..]);
      forall i, j | 0 <= i < j < |s|
        ensures OrderIndex(s[i]) <= OrderIndex(s[j])
      {
        assert s[j] == s[1..][j - 1];
        if i > 0 {
          assert s[i] == s[1..][i - 1];
        } else if j > 1 {
          assert s[1] == s[1..][0];
        }
      }
    }
  }

  /** Insertion adds exactly one occurrence of `x`. */
  lemma {:induction false} InsertMultiset(x: PieceKind, s: seq<PieceKind>)
    ensures multiset(Insert(x, s)) == multiset(s) + multiset{x}
  {
    if s != [] && OrderIndex(x) > OrderIndex(s[0]) {
      InsertMultiset(x, s[1..]);
      assert s == [s[0]] + s[1..];
      assert multiset(s) == multiset{s[0]} + multiset(s[1..]);
    }
  }

  /** The inserted list starts with `x` or with the old head. */
  lemma InsertHead(x: PieceKind, s: seq<PieceKind>)
    ensures |Insert(x, s)| > 0 && (Insert(x, s)[0] == x || (s != [] && Insert(x, s)[0] == s[0]))
  {
  }

  /** Insertion into an ordered list gives an ordered list. */
  lemma {:induction false} InsertOrdered(x: PieceKind, s: seq<PieceKind>)
    requires Ordered(s)
    ensures Ordered(Insert(x, s))
  {
    if s == [] {
    } else if OrderIndex(x) <= OrderIndex(s[0]) {
      assert ([x] + s)[1..] == s;
    } else {
      var rest := Insert(x, s[1..]);
      InsertOrdered(x, s[1..]);
      InsertHead(x, s[1..]);
      assert ([s[0]] + rest)[1..] == rest;
    }
  }

  /** The sorted copy `[...pieces].sort(byOrder)`; the input list itself is a value and is left as it was. */
  function SortCaptured(pieces: seq<PieceKind>): (r: seq<PieceKind>)
    ensures multiset(r) == multiset(pieces)
  {
    if pieces == [] then []
    else
      InsertMultiset(pieces[0], SortCaptured(pieces[1..]));
      assert pieces == [pieces[0]] + pieces[1..];
      Insert(pieces[0], SortCaptured(pieces[1..]))
  }

  lemma {:induction false} SortCapturedOrdered(pieces: seq<PieceKind>)
    ensures Ordered(SortCaptured(pieces))
    ensures multiset(SortCaptured(pieces)) == multiset(pieces)
  {
    if pieces != [] {
      SortCapturedOrdered(pieces[1..]);
      InsertOrdered(pieces[0], SortCaptured(pieces[1..]));
      InsertMultiset(pieces[0], SortCaptured(pieces[1..]));
      assert pieces == [pieces[0]] + pieces[1..];
      assert multiset(pieces) == multiset(pieces[1..]) + multiset{pieces[0]};
    }
  }

  /** The sorted copy is ordered q, r, b, n, p and holds exactly the input pieces. */
  lemma SortCapturedProps(pieces: seq<PieceKind>)
    ensures SortedByOrder(SortCaptured(pieces))
    ensures multiset(SortCaptured(pieces)) == multiset(pieces)
  {
    SortCapturedOrdered(pieces);
    OrderedPairwise(SortCaptured(pieces));
  }

  /** In an ordered list no element comes before the head. */
  lemma HeadComesFirst(a: seq<PieceKind>, y: PieceKind)
    requires SortedByOrder(a) && y in multiset(a)
    ensures OrderIndex(a[0]) <= OrderIndex(y)
  {
    var i :| 0 <= i < |a| && a[i] == y;
    if i > 0 {
      assert OrderIndex(a[0]) <= OrderIndex(a[i]);
    }
  }

  /** Two ordered arrangements of the same non-empty pieces start with the same kind. */
  lemma SameHead(a: seq<PieceKind>, b: seq<PieceKind>)
    requires SortedByOrder(a) && SortedByOrder(b) && multiset(a) == multiset(b) && a != []
    ensures b != [] && a[0] == b[0]
  {
    assert a[0] in multiset(b);
    HeadComesFirst(a, b[0]);
    HeadComesFirst(b, a[0]);
    OrderIndexInjective(a[0], b[0]);
  }

  lemma SameTail(a: seq<PieceKind>, b: seq<PieceKind>)
    requires a != [] && b != [] && a[0] == b[0] && multiset(a) == multiset(b)
    ensures multiset(a[1..]) == multiset(b[1..])
  {
    assert a == [a[0]] + a[1..] && b == [b[0]] + b[1..];
    assert multiset(a) == multiset{a[0]} + multiset(a[1..]);
    assert multiset(b) == multiset{b[0]} + multiset(b[1..]);
    assert multiset(a[1..]) == multiset(a) - multiset{a[0]};
    assert multiset(b[1..]) == multiset(b) - multiset{b[0]};
  }

  /** Two ordered arrangements of the same pieces are the same list: any correct sort gives `SortCaptured`. */
  lemma {:induction false} SortedPermutationUnique(a: seq<PieceKind>, b: seq<PieceKind>)
    requires SortedByOrder(a) && SortedByOrder(b) && multiset(a) == multiset(b)
    ensures a == b
  {
    if a == [] {
      assert |b| == |multiset(b)| == 0;
    } else {
      SameHead(a, b);
      SameTail(a, b);
      SortedTail(a);
      SortedTail(b);
      SortedPermutationUnique(a[1..], b[1..]);
      assert a == [a[0]] + a[1..] && b == [b[0]] + b[1..];
    }
  }

  // ---------------------------------------------------------------------------
  // Player panels.

  datatype Panel = Panel(name: string, highlighted: bool, captured: seq<Piece>)

  /** One player's panel: the captures of `side`, sorted and drawn in the opponent's colour. */
  function PlayerPanel(s: GameState, names: PlayerNames, side: Color): (p: Panel)
    ensures p.name == NameOf(names, side)
    ensures p.highlighted <==> s.turn == side && !s.isGameOver
    ensures var mine := if side == White then s.capturedPieces.white else s.capturedPieces.black;
      && |p.captured| == |mine|
      && (forall i :: 0 <= i < |p.captured| ==> p.captured[i].color == Opponent(side))
      && (forall i, j :: 0 <= i < j < |p.captured| ==> OrderIndex(p.captured[i].kind) <= OrderIndex(p.captured[j].kind))
      && multiset(KindsOf(p.captured)) == multiset(mine)
  {
    var mine := if side == White then s.capturedPieces.white else s.capturedPieces.black;
    var shown := if side == White then Black else White;
    var sorted := SortCaptured(mine);
    SortCapturedProps(mine);
    assert |sorted| == |mine| by { assert |multiset(sorted)| == |multiset(mine)|; }
    var drawn := seq(|sorted|, i requires 0 <= i < |sorted| => Piece(sorted[i], shown));
    assert KindsOf(drawn) == sorted;
    Panel(NameOf(names, side), s.turn == side && !s.isGameOver, drawn)
  }

  function KindsOf(pieces: seq<Piece>): (ks: seq<PieceKind>)
    ensures |ks| == |pieces| && forall i :: 0 <= i < |pieces| ==> ks[i] == pieces[i].kind
  {
    seq(|pieces|, i requires 0 <= i < |pieces| => pieces[i].kind)
  }
}
