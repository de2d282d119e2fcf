/**
 * The rules of the latest revision of the engine, as functions of a board
 * value: move execution (castling rook relocation, en-passant capture, the
 * two-rank pawn flag), the king search and the check test, the legality
 * filters that simulate a move and look for self-check, and the post-move
 * sweep. A fatal abort of the engine is the result None.
 */
module ChessRules {
  import opened Wrappers
  import opened Pieces
  import opened Squares
  import opened MoveCalculator

  function AbsDiff(a: int, b: int): nat
  {
    if a >= b then a - b else b - a
  }

  // ---------------------------------------------------------------------
  // Executing a move
  // ---------------------------------------------------------------------

  /** An enemy pawn (for a mover of colour c) whose en-passant flag is set stands on q. */
  predicate IsEnPassantVictim(b: BoardState, q: Square, c: Color)
    requires InBound(q)
  {
    GetPiece(b, q).Some? && GetPiece(b, q).value.color != c && GetPiece(b, q).value.pieceType == Pawn(true)
  }

  /** The square a move clears as its capture: beside the source for an en-passant capture, else the destination. */
  function AttackingPosition(b: BoardState, from: Square, to: Square, src: Piece): (r: Square)
    requires InBound(from) && InBound(to)
    ensures InBound(r)
  {
    if src.pieceType.Pawn? && from.0 != to.0 && IsEnPassantVictim(b, (to.0, from.1), src.color) then (to.0, from.1)
    else to
  }

  /** The mover with its en-passant flag set when it is a pawn advancing two ranks straight ahead. */
  function FlagDoubleStep(from: Square, to: Square, src: Piece): Piece
  {
    if src.pieceType.Pawn? && from.0 == to.0 && AbsDiff(from.1, to.1) == 2 then src.(pieceType := Pawn(true))
    else src
  }

  /** A king moving two files is castling. */
  predicate IsCastling(from: Square, to: Square, src: Piece)
  {
    src.pieceType == King && AbsDiff(from.0, to.0) == 2
  }

  /** The corner the castling rook comes from: file 7 when the king moves right, else file 0. */
  function RookSquare(from: Square, to: Square): Square
  {
    (if to.0 > from.0 then BoardWidth - 1 else 0, from.1)
  }

  /** Where the castling rook lands: next to the king's destination, on the side it came from. */
  function RookTarget(from: Square, to: Square): Square
  {
    (if to.0 > from.0 then to.0 - 1 else to.0 + 1, from.1)
  }

  /** The board after the castling rook is relocated; None when the corner is empty. */
  function CastleRook(b: BoardState, from: Square, to: Square, src: Piece): Option<BoardState>
    requires InBound(from) && InBound(to)
  {
    if !IsCastling(from, to, src) then Some(b)
    else
      match GetPiece(b, RookSquare(from, to))
      case None => None
      case Some(rook) =>
        Some(Put(Put(b, RookSquare(from, to), None), RookTarget(from, to), Some(SetHasMoved(rook, true))))
  }

  /**
   * The board after moving the piece on from to to. None when from is empty
   * or when a castling king finds no piece in its corner.
   */
  function MoveSpec(b: BoardState, from: Square, to: Square): Option<BoardState>
    requires InBound(from) && InBound(to)
  {
    match GetPiece(b, from)
    case None => None
    case Some(piece) =>
      var src := SetHasMoved(piece, true);
      var attacking := AttackingPosition(b, from, to, src);
      var mover := FlagDoubleStep(from, to, src);
      match CastleRook(b, from, to, src)
      case None => None
      case Some(b1) => Some(Put(Put(Put(b1, from, None), attacking, None), to, Some(mover)))
  }

  /** A move aborts exactly when its source is empty or a castling king's corner is empty. */
  lemma MoveFatal(b: BoardState, from: Square, to: Square)
    requires InBound(from) && InBound(to)
    ensures MoveSpec(b, from, to).None? <==>
      || IsEmptyOn(b, from)
      || (IsCastling(from, to, GetPiece(b, from).value) && IsEmptyOn(b, RookSquare(from, to)))
  {
  }

  /**
   * After a move the destination holds the mover: same colour, same kind,
   * moved, and a flagged pawn exactly when it was flagged or has just
   * advanced two ranks; the source is empty unless it is the destination.
   */
  lemma MoveMover(b: BoardState, from: Square, to: Square)
    requires InBound(from) && InBound(to) && MoveSpec(b, from, to).Some?
    ensures GetPiece(b, from).Some?
    ensures var p := GetPiece(b, from).value;
      var r := MoveSpec(b, from, to).value;
      && GetPiece(r, to).Some?
      && GetPiece(r, to).value.color == p.color
      && GetPiece(r, to).value.hasMoved
      && SameKind(GetPiece(r, to).value.pieceType, p.pieceType)
      && (GetPiece(r, to).value.pieceType == Pawn(true) <==>
            p.pieceType == Pawn(true) || (p.pieceType.Pawn? && from.0 == to.0 && AbsDiff(from.1, to.1) == 2))
      && (from != to ==> IsEmptyOn(r, from))
  {
  }

  /**
   * A pawn moving to another file next to a flagged enemy pawn on
   * (to.x, from.y) removes that pawn.
   */
  lemma MoveEnPassant(b: BoardState, from: Square, to: Square)
    requires InBound(from) && InBound(to) && MoveSpec(b, from, to).Some?
    requires GetPiece(b, from).value.pieceType.Pawn? && from.0 != to.0
    requires IsEnPassantVictim(b, (to.0, from.1), GetPiece(b, from).value.color) && from.1 != to.1
    ensures IsEmptyOn(MoveSpec(b, from, to).value, (to.0, from.1))
  {
  }

  /**
   * A castling king takes the corner rook along: it lands next to the
   * king's destination, marked moved, and the corner is empty unless the
   * king itself landed there.
   */
  lemma MoveCastling(b: BoardState, from: Square, to: Square)
    requires InBound(from) && InBound(to) && MoveSpec(b, from, to).Some?
    requires IsCastling(from, to, GetPiece(b, from).value)
    ensures InBound(RookTarget(from, to)) && RookTarget(from, to) != from && RookTarget(from, to) != to
    ensures GetPiece(b, RookSquare(from, to)).Some?
    ensures GetPiece(MoveSpec(b, from, to).value, RookTarget(from, to)) ==
      Some(SetHasMoved(GetPiece(b, RookSquare(from, to)).value, true))
    ensures RookSquare(from, to) != to ==> IsEmptyOn(MoveSpec(b, from, to).value, RookSquare(from, to))
  {
  }

  /**
   * A move changes no square other than its source, its destination, its
   * capture square and, when castling, the rook's two squares.
   */
  lemma MoveFrame(b: BoardState, from: Square, to: Square, q: Square)
    requires InBound(from) && InBound(to) && MoveSpec(b, from, to).Some? && InBound(q)
    requires q != from && q != to && q != AttackingPosition(b, from, to, SetHasMoved(GetPiece(b, from).value, true))
    requires IsCastling(from, to, GetPiece(b, from).value) ==> q != RookSquare(from, to) && q != RookTarget(from, to)
    ensures GetPiece(MoveSpec(b, from, to).value, q) == GetPiece(b, q)
  {
    var src := SetHasMoved(GetPiece(b, from).value, true);
    var attacking := AttackingPosition(b, from, to, src);
    var b1 := CastleRook(b, from, to, src).value;
    if IsCastling(from, to, src) {
      var rook := GetPiece(b, RookSquare(from, to)).value;
      PutOther(b, RookSquare(from, to), None, q);
      PutOther(Put(b, RookSquare(from, to), None), RookTarget(from, to), Some(SetHasMoved(rook, true)), q);
    }
    PutOther(b1, from, None, q);
    PutOther(Put(b1, from, None), attacking, None, q);
    PutOther(Put(Put(b1, from, None), attacking, None), to, Some(FlagDoubleStep(from, to, src)), q);
  }

  /** Moving a piece onto its own square only marks it moved. */
  lemma MoveInPlace(b: BoardState, from: Square)
    requires InBound(from) && GetPiece(b, from).Some?
    ensures MoveSpec(b, from, from) == Some(Put(b, from, Some(SetHasMoved(GetPiece(b, from).value, true))))
  {
    var src := SetHasMoved(GetPiece(b, from).value, true);
    var r := Put(Put(Put(b, from, None), from, None), from, Some(src));
    assert r == Put(b, from, Some(src));
  }

  // ---------------------------------------------------------------------
  // The king search and the check test
  // ---------------------------------------------------------------------

  predicate IsKingOf(b: BoardState, q: Square, c: Color)
    requires InBound(q)
  {
    GetPiece(b, q).Some? && GetPiece(b, q).value.color == c && GetPiece(b, q).value.pieceType == King
  }

  ghost predicate HasKing(b: BoardState, c: Color)
  {
    exists q :: InBound(q) && IsKingOf(b, q, c)
  }

  /** The squares holding a king of colour c. */
  function KingSquares(b: BoardState, c: Color): (r: set<Square>)
    ensures forall q :: q in r <==> InBound(q) && IsKingOf(b, q, c)
  {
    set x, y | 0 <= x < BoardWidth && 0 <= y < BoardHeight && IsKingOf(b, (x, y), c) :: (x, y)
  }

  /** The first row at or after y in column x that holds one of the kings. */
  function ColumnKing(kings: set<Square>, x: int, y: int): (r: Option<int>)
    requires 0 <= y <= BoardHeight
    ensures r.Some? ==> y <= r.value < BoardHeight
    decreases BoardHeight - y
  {
    if y == BoardHeight then None
    else if (x, y) in kings then Some(y)
    else ColumnKing(kings, x, y + 1)
  }

  /**
   * The result of the search over the columns before n: the inner loop's
   * break leaves only the row loop, so a later column's king replaces an
   * earlier one.
   */
  function KingScan(kings: set<Square>, n: int): (r: Option<Square>)
    requires 0 <= n <= BoardWidth
    ensures r.Some? ==> InBound(r.value) && r.value.0 < n
    decreases n
  {
    if n == 0 then None
    else
      match ColumnKing(kings, n - 1, 0)
      case Some(y) => Some((n - 1, y))
      case None => KingScan(kings, n - 1)
  }

  function ChessKing(b: BoardState, c: Color): Option<Square>
  {
    KingScan(KingSquares(b, c), BoardWidth)
  }

  /** The column search finds a king exactly when one stands at or after row y, and it finds the first. */
  lemma {:induction false} ColumnKingFacts(kings: set<Square>, x: int, y: int)
    requires 0 <= y <= BoardHeight
    ensures ColumnKing(kings, x, y).Some? <==> exists j :: y <= j < BoardHeight && (x, j) in kings
    ensures ColumnKing(kings, x, y).Some? ==>
      var k := ColumnKing(kings, x, y).value;
      y <= k < BoardHeight && (x, k) in kings && forall j :: y <= j < k ==> (x, j) !in kings
    decreases BoardHeight - y
  {
    if y < BoardHeight {
      ColumnKingFacts(kings, x, y + 1);
      if exists j :: y <= j < BoardHeight && (x, j) in kings {
        var j :| y <= j < BoardHeight && (x, j) in kings;
        if (x, y) !in kings {
          assert y + 1 <= j;
        }
      }
    }
  }

  /** A search result over the columns before n is one of the kings, in one of those columns. */
  lemma {:induction false} KingScanIsKing(kings: set<Square>, n: int)
    requires 0 <= n <= BoardWidth
    ensures KingScan(kings, n).Some? ==> KingScan(kings, n).value in kings
    decreases n
  {
    if n > 0 {
      ColumnKingFacts(kings, n - 1, 0);
      if ColumnKing(kings, n - 1, 0).None? {
        KingScanIsKing(kings, n - 1);
      }
    }
  }

  /** No king stands in a column after the search result, or higher up in its column. */
  lemma {:induction false} KingScanLast(kings: set<Square>, n: int)
    requires 0 <= n <= BoardWidth
    ensures KingScan(kings, n).Some? ==>
      var k := KingScan(kings, n).value;
      && (forall q :: InBound(q) && k.0 < q.0 < n ==> q !in kings)
      && (forall j :: 0 <= j < k.1 ==> (k.0, j) !in kings)
    decreases n
  {
    if n > 0 {
      ColumnKingFacts(kings, n - 1, 0);
      if ColumnKing(kings, n - 1, 0).None? {
        KingScanLast(kings, n - 1);
        forall q | InBound(q) && q.0 == n - 1
          ensures q !in kings
        {
          assert q == (n - 1, q.1);
        }
      }
    }
  }

  /** The search over the columns before n finds nothing only when none of them holds a king. */
  lemma {:induction false} KingScanComplete(kings: set<Square>, n: int)
    requires 0 <= n <= BoardWidth
    ensures KingScan(kings, n).None? ==> forall q :: InBound(q) && q.0 < n ==> q !in kings
    decreases n
  {
    if n > 0 && KingScan(kings, n).None? {
      ColumnKingFacts(kings, n - 1, 0);
      KingScanComplete(kings, n - 1);
      forall q | InBound(q) && q.0 == n - 1
        ensures q !in kings
      {
        assert q == (n - 1, q.1);
      }
    }
  }

  /** A row without a king: the column's search goes on to the next row. */
  lemma ColumnKingSkip(kings: set<Square>, x: int, y: int)
    requires 0 <= y < BoardHeight && (x, y) !in kings
    requires ColumnKing(kings, x, 0) == ColumnKing(kings, x, y)
    ensures ColumnKing(kings, x, 0) == ColumnKing(kings, x, y + 1)
  {
  }

  /**
   * The king search finds a king exactly when the colour has one; the one it
   * finds stands in the last column holding such a king, on the first row of
   * that column that holds one.
   */
  lemma ChessKingFacts(b: BoardState, c: Color)
    ensures ChessKing(b, c).Some? <==> HasKing(b, c)
    ensures ChessKing(b, c).Some? ==>
      var k := ChessKing(b, c).value;
      && InBound(k) && IsKingOf(b, k, c)
      && forall q :: InBound(q) && IsKingOf(b, q, c) ==> q.0 < k.0 || (q.0 == k.0 && k.1 <= q.1)
  {
    var kings := KingSquares(b, c);
    KingScanIsKing(kings, BoardWidth);
    KingScanLast(kings, BoardWidth);
    KingScanComplete(kings, BoardWidth);
    if ChessKing(b, c).Some? {
      var k := ChessKing(b, c).value;
      forall q | InBound(q) && IsKingOf(b, q, c)
        ensures q.0 < k.0 || (q.0 == k.0 && k.1 <= q.1)
      {
        assert q in kings;
        assert (q.0, q.1) in kings;
      }
    }
  }

  /** A colour with a single king: the search finds that king. */
  lemma ChessKingUnique(b: BoardState, c: Color, k: Square)
    requires InBound(k) && IsKingOf(b, k, c)
    requires forall q :: InBound(q) && IsKingOf(b, q, c) ==> q == k
    ensures ChessKing(b, c) == Some(k)
  {
    ChessKingFacts(b, c);
  }

  /** Whether the king of colour c is attacked; None when c has no king. */
  function ChessInCheck(b: BoardState, c: Color): Option<bool>
  {
    match ChessKing(b, c)
    case None => None
    case Some(k) => Some(k in Attacks(b, EnemyColor(c)))
  }

  /**
   * The check test aborts exactly when the colour has no king; otherwise it
   * says whether some enemy piece has the found king's square among its
   * pseudo-legal moves.
   */
  lemma ChessInCheckFacts(b: BoardState, c: Color)
    ensures ChessInCheck(b, c).None? <==> !HasKing(b, c)
    ensures ChessInCheck(b, c).Some? ==>
      (ChessInCheck(b, c).value <==>
         exists s :: InBound(s) && IsColorOn(b, s, EnemyColor(c)) && ChessKing(b, c).value in PseudoMoves(b, s))
  {
    ChessKingFacts(b, c);
    if ChessKing(b, c).Some? {
      AttacksMember(b, EnemyColor(c), ChessKing(b, c).value);
    }
  }

  // ---------------------------------------------------------------------
  // The legality filters
  // ---------------------------------------------------------------------

  /** Whether colour c is in check after the move from from to to; None when either aborts. */
  function SimulatedCheck(b: BoardState, from: Square, to: Square, c: Color): Option<bool>
    requires InBound(from) && InBound(to)
  {
    match MoveSpec(b, from, to)
    case None => None
    case Some(r) => ChessInCheck(r, c)
  }

  /** Every candidate of the table can be simulated and checked without an abort. */
  predicate GeneralDefined(b: BoardState, from: Square, c: Color, cands: seq<bool>)
    requires InBound(from) && |cands| == BoardSize
  {
    forall i :: 0 <= i < BoardSize && cands[i] ==> SimulatedCheck(b, from, ToIndex2D(i), c).Some?
  }

  /** The candidates after which the mover's colour is not in check. */
  function GeneralFilter(b: BoardState, from: Square, c: Color, cands: seq<bool>): (r: seq<bool>)
    requires InBound(from) && |cands| == BoardSize
    ensures |r| == BoardSize
  {
    seq(BoardSize, i requires 0 <= i < BoardSize => cands[i] && SimulatedCheck(b, from, ToIndex2D(i), c) == Some(false))
  }

  /**
   * The filter keeps a candidate exactly when simulating it leaves the
   * mover not in check, and never adds one.
   */
  lemma GeneralFilterFacts(b: BoardState, from: Square, c: Color, cands: seq<bool>, to: Square)
    requires InBound(from) && |cands| == BoardSize && InBound(to)
    ensures var i := ToIndex1D(to);
      0 <= i < BoardSize && (GeneralFilter(b, from, c, cands)[i] <==>
        cands[i] && MoveSpec(b, from, to).Some? && ChessInCheck(MoveSpec(b, from, to).value, c) == Some(false))
  {
    IndexRoundTrip(to, 0);
  }

  function CastleDestination(from: Square, xdir: int): Square
  {
    (from.0 + 2 * xdir, from.1)
  }

  function TransitSquare(from: Square, xdir: int): Square
  {
    (from.0 + xdir, from.1)
  }

  /** A marked castling destination on side xdir can have both of its check simulations run. */
  predicate CastleDefinedOn(b: BoardState, from: Square, c: Color, moves: seq<bool>, xdir: int)
    requires InBound(from) && |moves| == BoardSize && (xdir == -1 || xdir == 1)
  {
    var dst := CastleDestination(from, xdir);
    InBound(dst) && moves[ToIndex1D(dst)] ==>
      SimulatedCheck(b, from, from, c).Some? && SimulatedCheck(b, from, TransitSquare(from, xdir), c).Some?
  }

  /**
   * The castling test on side xdir: a marked destination two files away is
   * cleared when the king is in check on its start square or on the square
   * it passes.
   */
  function CastleClear(b: BoardState, from: Square, c: Color, moves: seq<bool>, xdir: int): (r: seq<bool>)
    requires InBound(from) && |moves| == BoardSize && (xdir == -1 || xdir == 1)
    ensures |r| == BoardSize
  {
    var dst := CastleDestination(from, xdir);
    if InBound(dst) && moves[ToIndex1D(dst)] &&
       (SimulatedCheck(b, from, from, c) == Some(true) || SimulatedCheck(b, from, TransitSquare(from, xdir), c) == Some(true))
    then moves[ToIndex1D(dst) := false]
    else moves
  }

  predicate CastleDefined(b: BoardState, from: Square, c: Color, moves: seq<bool>)
    requires InBound(from) && |moves| == BoardSize
  {
    CastleDefinedOn(b, from, c, moves, -1) && CastleDefinedOn(b, from, c, moves, 1)
  }

  /** The castling filter: runs both sides for a king and leaves other pieces' tables alone. */
  function CastleFilter(b: BoardState, from: Square, c: Color, moves: seq<bool>): (r: seq<bool>)
    requires InBound(from) && |moves| == BoardSize && GetPiece(b, from).Some?
    ensures |r| == BoardSize
  {
    if GetPiece(b, from).value.pieceType != King then moves
    else CastleClear(b, from, c, CastleClear(b, from, c, moves, -1), 1)
  }

  /**
   * The castling filter only clears entries, only the two castling
   * destinations, and for a king clears a marked destination exactly when
   * the king is in check on its start square or on the transit square.
   */
  lemma CastleFilterFacts(b: BoardState, from: Square, c: Color, moves: seq<bool>, xdir: int, i: int)
    requires InBound(from) && |moves| == BoardSize && GetPiece(b, from).Some? && 0 <= i < BoardSize
    requires xdir == -1 || xdir == 1
    ensures CastleFilter(b, from, c, moves)[i] ==> moves[i]
    ensures ToIndex2D(i) != CastleDestination(from, -1) && ToIndex2D(i) != CastleDestination(from, 1) ==>
      CastleFilter(b, from, c, moves)[i] == moves[i]
    ensures
      var dst := CastleDestination(from, xdir);
      GetPiece(b, from).value.pieceType == King && InBound(dst) && moves[ToIndex1D(dst)] ==>
        (!CastleFilter(b, from, c, moves)[ToIndex1D(dst)] <==>
           SimulatedCheck(b, from, from, c) == Some(true) ||
           SimulatedCheck(b, from, TransitSquare(from, xdir), c) == Some(true))
  {
    if GetPiece(b, from).value.pieceType == King {
      var m1 := CastleClear(b, from, c, moves, -1);
      CastleClearFacts(b, from, c, moves, -1, i);
      CastleClearFacts(b, from, c, m1, 1, i);
      var dst := CastleDestination(from, xdir);
      if InBound(dst) {
        var j := ToIndex1D(dst);
        IndexRoundTrip(dst, 0);
        CastleClearFacts(b, from, c, moves, -1, j);
        CastleClearFacts(b, from, c, m1, 1, j);
        if xdir == -1 {
          assert ToIndex2D(j) != CastleDestination(from, 1);
        }
      }
    }
  }

  /**
   * One side's castling test only clears entries, only its own destination,
   * and clears that one, when marked, exactly when the king is in check on
   * its start square or on the transit square.
   */
  lemma CastleClearFacts(b: BoardState, from: Square, c: Color, moves: seq<bool>, xdir: int, i: int)
    requires InBound(from) && |moves| == BoardSize && 0 <= i < BoardSize
    requires xdir == -1 || xdir == 1
    ensures CastleClear(b, from, c, moves, xdir)[i] ==> moves[i]
    ensures ToIndex2D(i) != CastleDestination(from, xdir) ==> CastleClear(b, from, c, moves, xdir)[i] == moves[i]
    ensures
      var dst := CastleDestination(from, xdir);
      ToIndex2D(i) == dst && moves[i] ==>
        (!CastleClear(b, from, c, moves, xdir)[i] <==>
           SimulatedCheck(b, from, from, c) == Some(true) ||
           SimulatedCheck(b, from, TransitSquare(from, xdir), c) == Some(true))
  {
    var dst := CastleDestination(from, xdir);
    IndexRoundTrip((0, 0), i);
    if InBound(dst) {
      IndexRoundTrip(dst, 0);
    }
  }

  /** Clearing the left castling destination leaves the right one's entry alone. */
  lemma CastleClearOther(b: BoardState, from: Square, c: Color, moves: seq<bool>)
    requires InBound(from) && |moves| == BoardSize
    ensures InBound(CastleDestination(from, 1)) ==>
      CastleClear(b, from, c, moves, -1)[ToIndex1D(CastleDestination(from, 1))] == moves[ToIndex1D(CastleDestination(from, 1))]
  {
    var left := CastleDestination(from, -1);
    var right := CastleDestination(from, 1);
    if InBound(left) && InBound(right) {
      ToIndex1DInjective(left, right);
    }
  }

  /** Whether the row of the piece on from can be computed without an abort. */
  predicate RowDefined(b: BoardState, from: Square, c: Color)
    requires InBound(from)
  {
    var cands := TableOf(PseudoMoves(b, from));
    && GeneralDefined(b, from, c, cands)
    && (GetPiece(b, from).Some? && GetPiece(b, from).value.pieceType == King ==>
          CastleDefined(b, from, c, GeneralFilter(b, from, c, cands)))
  }

  /** The legal-move table of the piece on from: its generated moves, then both filters. */
  function LegalRow(b: BoardState, from: Square, c: Color): (r: seq<bool>)
    requires InBound(from) && GetPiece(b, from).Some?
    ensures |r| == BoardSize
  {
    CastleFilter(b, from, c, GeneralFilter(b, from, c, TableOf(PseudoMoves(b, from))))
  }

  /** The generator never marks the square two files from a king on side xdir. */
  lemma KingTableNoCastle(b: BoardState, from: Square, c: Color, xdir: int)
    requires InBound(from) && GetPiece(b, from).Some? && GetPiece(b, from).value.pieceType == King
    requires xdir == -1 || xdir == 1
    ensures var dst := CastleDestination(from, xdir);
      InBound(dst) ==> !GeneralFilter(b, from, c, TableOf(PseudoMoves(b, from)))[ToIndex1D(dst)]
  {
    var dst := CastleDestination(from, xdir);
    if InBound(dst) {
      KingExact(b, from, GetPiece(b, from).value, dst);
      IndexRoundTrip(dst, 0);
    }
  }

  /** The castling test on a side whose destination is unmarked changes nothing. */
  lemma CastleClearUnmarked(b: BoardState, from: Square, c: Color, moves: seq<bool>, xdir: int)
    requires InBound(from) && |moves| == BoardSize && (xdir == -1 || xdir == 1)
    requires InBound(CastleDestination(from, xdir)) ==> !moves[ToIndex1D(CastleDestination(from, xdir))]
    ensures CastleClear(b, from, c, moves, xdir) == moves
  {
  }

  /**
   * The generator never marks a square two files from a king, so the
   * castling filter leaves a generated table unchanged.
   */
  lemma CastleFilterInert(b: BoardState, from: Square, c: Color)
    requires InBound(from) && GetPiece(b, from).Some?
    ensures LegalRow(b, from, c) == GeneralFilter(b, from, c, TableOf(PseudoMoves(b, from)))
  {
    if GetPiece(b, from).value.pieceType == King {
      var g := GeneralFilter(b, from, c, TableOf(PseudoMoves(b, from)));
      KingTableNoCastle(b, from, c, -1);
      KingTableNoCastle(b, from, c, 1);
      CastleClearUnmarked(b, from, c, g, -1);
      CastleClearUnmarked(b, from, c, g, 1);
    }
  }

  /**
   * The legal moves of a piece are exactly its generated moves after which
   * the mover's colour is not in check.
   */
  lemma LegalRowExact(b: BoardState, from: Square, c: Color, to: Square)
    requires InBound(from) && GetPiece(b, from).Some? && InBound(to)
    ensures var i := ToIndex1D(to);
      0 <= i < BoardSize && (LegalRow(b, from, c)[i] <==>
        to in PseudoMoves(b, from) && SimulatedCheck(b, from, to, c) == Some(false))
  {
    CastleFilterInert(b, from, c);
    IndexRoundTrip(to, 0);
  }

  /** Every row of colour c on the board can be computed. */
  predicate ComputeDefined(b: BoardState, c: Color)
  {
    forall x, y :: 0 <= x < BoardWidth && 0 <= y < BoardHeight && IsColorOn(b, (x, y), c) ==> RowDefined(b, (x, y), c)
  }

  /** A move of a piece of colour c to one of its generated squares leaves a king of colour c behind. */
  lemma MoveKeepsKing(b: BoardState, from: Square, to: Square, c: Color)
    requires InBound(from) && IsColorOn(b, from, c) && HasKing(b, c)
    requires to in PseudoMoves(b, from) || to == from || (GetPiece(b, from).value.pieceType == King && AbsDiff(from.0, to.0) == 1 && from.1 == to.1)
    requires InBound(to)
    ensures MoveSpec(b, from, to).Some? && HasKing(MoveSpec(b, from, to).value, c)
  {
    var piece := GetPiece(b, from).value;
    if to in PseudoMoves(b, from) {
      PseudoMovesSound(b, from, to);
      if piece.pieceType == King {
        KingExact(b, from, piece, to);
      }
    }
    assert !IsCastling(from, to, piece) by {
      if piece.pieceType == King && to in PseudoMoves(b, from) {
        KingExact(b, from, piece, to);
      }
    }
    MoveMover(b, from, to);
    var r := MoveSpec(b, from, to).value;
    if piece.pieceType == King {
      assert IsKingOf(r, to, c);
    } else {
      var k :| InBound(k) && IsKingOf(b, k, c);
      var attacking := AttackingPosition(b, from, to, SetHasMoved(piece, true));
      assert k != from;
      if to == from {
        MoveInPlace(b, from);
        assert GetPiece(r, k) == GetPiece(b, k);
      } else {
        assert k != to by {
          if to in PseudoMoves(b, from) {
            PseudoMovesSound(b, from, to);
          }
        }
        assert k != attacking;
        MoveFrame(b, from, to, k);
      }
      assert IsKingOf(r, k, c);
    }
  }

  /** On a board where colour c has a king, all of c's legal-move rows can be computed. */
  lemma ComputeDefinedWithKing(b: BoardState, c: Color)
    requires HasKing(b, c)
    ensures ComputeDefined(b, c)
  {
    forall x, y | 0 <= x < BoardWidth && 0 <= y < BoardHeight && IsColorOn(b, (x, y), c)
      ensures RowDefined(b, (x, y), c)
    {
      var from := (x, y);
      var cands := TableOf(PseudoMoves(b, from));
      forall i | 0 <= i < BoardSize && cands[i]
        ensures SimulatedCheck(b, from, ToIndex2D(i), c).Some?
      {
        IndexRoundTrip((0, 0), i);
        MoveKeepsKing(b, from, ToIndex2D(i), c);
        ChessKingFacts(MoveSpec(b, from, ToIndex2D(i)).value, c);
      }
      if GetPiece(b, from).value.pieceType == King {
        MoveKeepsKing(b, from, from, c);
        ChessKingFacts(MoveSpec(b, from, from).value, c);
        forall xdir | xdir == -1 || xdir == 1
          ensures InBound(CastleDestination(from, xdir)) ==> SimulatedCheck(b, from, TransitSquare(from, xdir), c).Some?
        {
          if InBound(CastleDestination(from, xdir)) {
            var t := TransitSquare(from, xdir);
            MoveKeepsKing(b, from, t, c);
            ChessKingFacts(MoveSpec(b, from, t).value, c);
          }
        }
      }
    }
  }

  /** The table of the piece on from after the computation: its legal row for the side to move, else empty. */
  function LegalMovesOf(b: BoardState, from: Square, c: Color): (r: seq<bool>)
    requires InBound(from)
    ensures |r| == BoardSize
  {
    if IsColorOn(b, from, c) then LegalRow(b, from, c) else NoMoves()
  }

  /**
   * A square is movable after the computation exactly when it holds a piece
   * of the side to move that has a generated move not leaving its own king
   * in check.
   */
  lemma MovableExact(b: BoardState, from: Square, c: Color)
    requires InBound(from)
    ensures (true in LegalMovesOf(b, from, c)) <==>
      IsColorOn(b, from, c) &&
      exists to :: InBound(to) && to in PseudoMoves(b, from) && SimulatedCheck(b, from, to, c) == Some(false)
  {
    if IsColorOn(b, from, c) {
      if true in LegalMovesOf(b, from, c) {
        var i :| 0 <= i < BoardSize && LegalRow(b, from, c)[i];
        IndexRoundTrip((0, 0), i);
        LegalRowExact(b, from, c, ToIndex2D(i));
      }
      if exists to :: InBound(to) && to in PseudoMoves(b, from) && SimulatedCheck(b, from, to, c) == Some(false) {
        var to :| InBound(to) && to in PseudoMoves(b, from) && SimulatedCheck(b, from, to, c) == Some(false);
        LegalRowExact(b, from, c, to);
      }
    }
  }

  // ---------------------------------------------------------------------
  // The post-move sweep
  // ---------------------------------------------------------------------

  /** The rank on which a pawn of colour c is promoted: 0 for White, 7 for Black. */
  function PromotionRow(c: Color): int
  {
    if c == White then 0 else BoardHeight - 1
  }

  /** One cell of the sweep on rank y: the opponent's pawns lose their flag, a pawn on its far rank becomes a queen. */
  function PostMoveCell(cell: Option<Piece>, y: int, turn: Color): Option<Piece>
  {
    match cell
    case None => None
    case Some(p) =>
      var p1 := if p.color == EnemyColor(turn) && p.pieceType.Pawn? then p.(pieceType := Pawn(false)) else p;
      if p1.pieceType.Pawn? && y == PromotionRow(p1.color) then Promote(p1, Queen) else Some(p1)
  }

  function PostMoveSpec(b: BoardState, turn: Color): BoardState
  {
    seq(BoardSize, i requires 0 <= i < BoardSize => PostMoveCell(b[i], i / BoardWidth, turn))
  }

  /**
   * The sweep keeps every square's occupancy, colour and moved flag; it
   * turns a pawn on its far rank into a queen, clears the flag of the
   * opponent's other pawns, and changes no other piece.
   */
  lemma PostMoveFacts(b: BoardState, turn: Color, q: Square)
    requires InBound(q)
    ensures var r := PostMoveSpec(b, turn);
      && (IsEmptyOn(r, q) <==> IsEmptyOn(b, q))
      && (GetPiece(b, q).Some? ==>
            var p := GetPiece(b, q).value;
            var s := GetPiece(r, q).value;
            && s.color == p.color && s.hasMoved == p.hasMoved
            && (p.pieceType.Pawn? && q.1 == PromotionRow(p.color) ==> s.pieceType == Queen)
            && (p.pieceType.Pawn? && q.1 != PromotionRow(p.color) && p.color == EnemyColor(turn) ==> s.pieceType == Pawn(false))
            && (p.pieceType.Pawn? && q.1 != PromotionRow(p.color) && p.color == turn ==> s == p)
            && (!p.pieceType.Pawn? ==> s == p))
  {
    IndexRoundTrip(q, 0);
  }
}
