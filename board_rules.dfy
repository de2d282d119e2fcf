/**
 * The rules of the earlier revision of the engine, as values. This revision
 * keeps the board as one flat array of 64 cells. Its move knows no
 * castling and reports what it captured and where; a trial move of the
 * legality filter is undone by writing back only three cells; its king
 * search scans the flat indices and stops at the first king; its post-move
 * sweep only clears en-passant flags.
 */
module BoardRules {
  import opened Wrappers
  import opened Pieces
  import opened Squares
  import opened MoveCalculator
  import opened ChessRules

  // ---------------------------------------------------------------------
  // Executing and undoing a move
  // ---------------------------------------------------------------------

  /** What a move yields: the board after it, the old content of the captured cell, and that cell. */
  datatype Capture = Capture(board: BoardState, eliminated: Option<Piece>, position: Square)

  /**
   * The move of the earlier revision, without castling. The captured cell
   * is the en-passant victim's square beside the source, or else the
   * destination. None when the source is empty.
   */
  function FlatMove(b: BoardState, from: Square, to: Square): Option<Capture>
    requires InBound(from) && InBound(to)
  {
    match GetPiece(b, from)
    case None => None
    case Some(piece) =>
      var src := SetHasMoved(piece, true);
      var position := AttackingPosition(b, from, to, src);
      Some(Capture(Put(Put(Put(b, from, None), position, None), to, Some(FlagDoubleStep(from, to, src))),
                   GetPiece(b, position), position))
  }

  /**
   * A move aborts exactly on an empty source. Otherwise it returns the old
   * content of its capture square, which is the destination or, for an
   * en-passant capture, the victim's square (to.x, from.y); the mover
   * stands on the destination, moved, of the same colour and kind; the
   * source and the capture square are empty unless they are the
   * destination; no other square changes.
   */
  lemma FlatMoveFacts(b: BoardState, from: Square, to: Square, q: Square)
    requires InBound(from) && InBound(to) && InBound(q)
    ensures FlatMove(b, from, to).None? <==> IsEmptyOn(b, from)
    ensures FlatMove(b, from, to).Some? ==>
      var m := FlatMove(b, from, to).value;
      var p := GetPiece(b, from).value;
      && m.eliminated == GetPiece(b, m.position)
      && (m.position == to ||
          (m.position == (to.0, from.1) && p.pieceType.Pawn? && from.0 != to.0 && IsEnPassantVictim(b, m.position, p.color)))
      && GetPiece(m.board, to).Some?
      && GetPiece(m.board, to).value.color == p.color
      && GetPiece(m.board, to).value.hasMoved
      && SameKind(GetPiece(m.board, to).value.pieceType, p.pieceType)
      && (GetPiece(m.board, to).value.pieceType == Pawn(true) <==>
            p.pieceType == Pawn(true) || (p.pieceType.Pawn? && from.0 == to.0 && AbsDiff(from.1, to.1) == 2))
      && (from != to ==> IsEmptyOn(m.board, from))
      && (m.position != to ==> IsEmptyOn(m.board, m.position))
      && (q != from && q != to && q != m.position ==> GetPiece(m.board, q) == GetPiece(b, q))
  {
    if GetPiece(b, from).Some? {
      var src := SetHasMoved(GetPiece(b, from).value, true);
      var position := AttackingPosition(b, from, to, src);
      var b1 := Put(b, from, None);
      var b2 := Put(b1, position, None);
      if from != to {
        PutOther(b2, to, Some(FlagDoubleStep(from, to, src)), from);
        if position != from {
          PutOther(b1, position, None, from);
        }
      }
      if position != to {
        PutOther(b2, to, Some(FlagDoubleStep(from, to, src)), position);
      }
      if q != from && q != to && q != position {
        PutOther(b, from, None, q);
        PutOther(b1, position, None, q);
        PutOther(b2, to, Some(FlagDoubleStep(from, to, src)), q);
      }
    }
  }

  /**
   * The three-cell undo: the source gets back its old content, the
   * destination is emptied, and the captured cell gets back the captured
   * piece, in that order.
   */
  function UndoMove(after: BoardState, from: Square, to: Square, originalSrc: Option<Piece>,
                    eliminated: Option<Piece>, position: Square): BoardState
    requires InBound(from) && InBound(to) && InBound(position)
  {
    Put(Put(Put(after, from, originalSrc), to, None), position, eliminated)
  }

  /** The undo of the filter applied to the move from from to to on b. */
  function UndoOf(b: BoardState, from: Square, to: Square): (r: BoardState)
    requires InBound(from) && InBound(to) && FlatMove(b, from, to).Some?
  {
    var m := FlatMove(b, from, to).value;
    UndoMove(m.board, from, to, GetPiece(b, from), m.eliminated, m.position)
  }

  /**
   * The undo gives back the board before the move exactly when the
   * destination was empty or was itself the captured square. An en-passant
   * capture onto an occupied destination loses the piece that stood there.
   */
  lemma UndoExact(b: BoardState, from: Square, to: Square)
    requires InBound(from) && InBound(to) && FlatMove(b, from, to).Some?
    ensures UndoOf(b, from, to) == b <==> IsEmptyOn(b, to) || FlatMove(b, from, to).value.position == to
  {
    var m := FlatMove(b, from, to).value;
    var u := UndoOf(b, from, to);
    var u1 := Put(m.board, from, GetPiece(b, from));
    var u2 := Put(u1, to, None);
    if IsEmptyOn(b, to) || m.position == to {
      forall i | 0 <= i < BoardSize
        ensures u[i] == b[i]
      {
        var q := ToIndex2D(i);
        IndexRoundTrip(q, i);
        UndoCell(b, from, to, q);
      }
    } else {
      PutOther(u2, m.position, m.eliminated, to);
    }
  }

  /** One cell after the undo: the destination may have been emptied, every other cell is as before the move. */
  lemma UndoCell(b: BoardState, from: Square, to: Square, q: Square)
    requires InBound(from) && InBound(to) && InBound(q) && FlatMove(b, from, to).Some?
    ensures q != to ==> GetPiece(UndoOf(b, from, to), q) == GetPiece(b, q)
    ensures q == to ==> GetPiece(UndoOf(b, from, to), q) ==
                          (if FlatMove(b, from, to).value.position == to then GetPiece(b, to) else None)
  {
    var m := FlatMove(b, from, to).value;
    var u1 := Put(m.board, from, GetPiece(b, from));
    var u2 := Put(u1, to, None);
    FlatMoveFacts(b, from, to, q);
    if q != m.position {
      PutOther(u2, m.position, m.eliminated, q);
      if q != to {
        PutOther(u1, to, None, q);
        if q != from {
          PutOther(m.board, from, GetPiece(b, from), q);
        }
      }
    }
  }

  // ---------------------------------------------------------------------
  // The king search and the check test
  // ---------------------------------------------------------------------

  /** The flat indices holding a king of colour c. */
  function FlatKings(b: BoardState, c: Color): (r: set<int>)
    ensures forall i :: i in r <==> 0 <= i < BoardSize && b[i].Some? && b[i].value.color == c && b[i].value.pieceType == King
  {
    set i | 0 <= i < BoardSize && b[i].Some? && b[i].value.color == c && b[i].value.pieceType == King
  }

  /** The least index from i on that is in kings. */
  function FirstKing(kings: set<int>, i: int): (r: Option<int>)
    requires 0 <= i <= BoardSize
    ensures r.Some? ==> i <= r.value < BoardSize
    decreases BoardSize - i
  {
    if i == BoardSize then None
    else if i in kings then Some(i)
    else FirstKing(kings, i + 1)
  }

  /** The flat king search, which stops at the first king it meets. */
  function FlatKing(b: BoardState, c: Color): Option<int>
  {
    FirstKing(FlatKings(b, c), 0)
  }

  lemma {:induction false} FirstKingFacts(kings: set<int>, i: int)
    requires 0 <= i <= BoardSize
    ensures FirstKing(kings, i).None? <==> forall j :: i <= j < BoardSize ==> j !in kings
    ensures FirstKing(kings, i).Some? ==>
      FirstKing(kings, i).value in kings && forall j :: i <= j < FirstKing(kings, i).value ==> j !in kings
    decreases BoardSize - i
  {
    if i < BoardSize && i !in kings {
      FirstKingFacts(kings, i + 1);
    }
  }

  /**
   * The flat search aborts exactly when the colour has no king; otherwise
   * it finds the king of least flat index.
   */
  lemma FlatKingFacts(b: BoardState, c: Color)
    ensures FlatKing(b, c).None? <==> !HasKing(b, c)
    ensures FlatKing(b, c).Some? ==>
      var k := FlatKing(b, c).value;
      && 0 <= k < BoardSize && IsKingOf(b, ToIndex2D(k), c)
      && forall j :: 0 <= j < k ==> !IsKingOf(b, ToIndex2D(j), c)
  {
    var kings := FlatKings(b, c);
    FirstKingFacts(kings, 0);
    if FlatKing(b, c).None? {
      forall q | InBound(q)
        ensures !IsKingOf(b, q, c)
      {
        IndexRoundTrip(q, 0);
        assert ToIndex1D(q) !in kings;
      }
    } else {
      var k := FlatKing(b, c).value;
      IndexRoundTrip((0, 0), k);
      forall j | 0 <= j < k
        ensures !IsKingOf(b, ToIndex2D(j), c)
      {
        IndexRoundTrip((0, 0), j);
        assert j !in kings;
      }
    }
  }

  /** Whether the king of colour c is attacked, the king found by the flat search; None when c has no king. */
  function FlatInCheck(b: BoardState, c: Color): Option<bool>
  {
    match FlatKing(b, c)
    case None => None
    case Some(k) => Some(ToIndex2D(k) in Attacks(b, EnemyColor(c)))
  }

  /**
   * The check test aborts exactly when the colour has no king; otherwise it
   * says whether some enemy piece has the found king's square among its
   * pseudo-legal moves.
   */
  lemma FlatInCheckFacts(b: BoardState, c: Color)
    ensures FlatInCheck(b, c).None? <==> !HasKing(b, c)
    ensures FlatInCheck(b, c).Some? ==>
      (FlatInCheck(b, c).value <==>
         exists s :: InBound(s) && IsColorOn(b, s, EnemyColor(c)) && ToIndex2D(FlatKing(b, c).value) in PseudoMoves(b, s))
  {
    FlatKingFacts(b, c);
    if FlatKing(b, c).Some? {
      AttacksMember(b, EnemyColor(c), ToIndex2D(FlatKing(b, c).value));
    }
  }

  /**
   * With a single king of colour c, the flat search and the column search
   * of the latest revision both find it, and the two check tests agree.
   */
  lemma KingSearchesAgree(b: BoardState, c: Color, k: Square)
    requires InBound(k) && IsKingOf(b, k, c)
    requires forall q :: InBound(q) && IsKingOf(b, q, c) ==> q == k
    ensures FlatKing(b, c) == Some(ToIndex1D(k)) && ChessKing(b, c) == Some(k)
    ensures FlatInCheck(b, c) == ChessInCheck(b, c)
  {
    ChessKingUnique(b, c, k);
    FlatKingFacts(b, c);
    IndexRoundTrip(k, 0);
    var f := FlatKing(b, c).value;
    IndexRoundTrip((0, 0), f);
  }

  // ---------------------------------------------------------------------
  // The legality filter with the three-cell undo
  // ---------------------------------------------------------------------

  /** Whether c is in check after the move from from to to; None when the move or the test aborts. */
  function FlatSimulatedCheck(b: BoardState, from: Square, to: Square, c: Color): Option<bool>
    requires InBound(from) && InBound(to)
  {
    match FlatMove(b, from, to)
    case None => None
    case Some(m) => FlatInCheck(m.board, c)
  }

  /**
   * One candidate of the filter, on the board as the earlier candidates
   * left it: a marked index is played, tested and undone, and cleared when
   * the mover is in check. None when the move or the test aborts.
   */
  function FilterStep(b: BoardState, from: Square, c: Color, moves: seq<bool>, i: int): (r: Option<(BoardState, seq<bool>)>)
    requires InBound(from) && |moves| == BoardSize && 0 <= i < BoardSize
    ensures r.Some? ==> |r.value.1| == BoardSize
  {
    if !moves[i] then Some((b, moves))
    else
      var to := ToIndex2D(i);
      match FlatSimulatedCheck(b, from, to, c)
      case None => None
      case Some(inCheck) => Some((UndoOf(b, from, to), if inCheck then moves[i := false] else moves))
  }

  /** The filter loop from candidate index i on: the board it leaves and the table it stores. */
  function FilterFrom(b: BoardState, from: Square, c: Color, moves: seq<bool>, i: int): (r: Option<(BoardState, seq<bool>)>)
    requires InBound(from) && |moves| == BoardSize && 0 <= i <= BoardSize
    ensures r.Some? ==> |r.value.1| == BoardSize
    decreases BoardSize - i
  {
    if i == BoardSize then Some((b, moves))
    else
      match FilterStep(b, from, c, moves, i)
      case None => None
      case Some(s) => FilterFrom(s.0, from, c, s.1, i + 1)
  }

  /** Every marked candidate can be played and tested on b without an abort. */
  predicate FlatDefined(b: BoardState, from: Square, c: Color, moves: seq<bool>)
    requires InBound(from) && |moves| == BoardSize
  {
    forall i :: 0 <= i < BoardSize && moves[i] ==> FlatSimulatedCheck(b, from, ToIndex2D(i), c).Some?
  }

  /** Every marked candidate's undo is exact: its destination is empty or is its own capture square. */
  predicate ExactUndos(b: BoardState, from: Square, moves: seq<bool>)
    requires InBound(from) && |moves| == BoardSize
  {
    forall i :: 0 <= i < BoardSize && moves[i] && FlatMove(b, from, ToIndex2D(i)).Some? ==>
      IsEmptyOn(b, ToIndex2D(i)) || FlatMove(b, from, ToIndex2D(i)).value.position == ToIndex2D(i)
  }

  /** Which destinations of the piece on from leave colour c not in check, tested on b itself. */
  function SafeTable(b: BoardState, from: Square, c: Color): (r: seq<bool>)
    requires InBound(from)
    ensures |r| == BoardSize
  {
    seq(BoardSize, j requires 0 <= j < BoardSize => FlatSimulatedCheck(b, from, ToIndex2D(j), c) == Some(false))
  }

  /** The table with the entries from index n on kept only where safe holds. */
  function Masked(moves: seq<bool>, safe: seq<bool>, n: int): (r: seq<bool>)
    requires |moves| == BoardSize && |safe| == BoardSize
    ensures |r| == BoardSize
  {
    seq(BoardSize, j requires 0 <= j < BoardSize => moves[j] && (j < n || safe[j]))
  }

  /** Masking entry i and then the entries after it is masking from i on. */
  lemma MaskedStep(moves: seq<bool>, safe: seq<bool>, i: int)
    requires |moves| == BoardSize && |safe| == BoardSize && 0 <= i < BoardSize
    ensures Masked(moves[i := moves[i] && safe[i]], safe, i + 1) == Masked(moves, safe, i)
  {
  }

  /** The filter tested on b itself: the candidates after which the mover is not in check. */
  function FlatFilter(b: BoardState, from: Square, c: Color, moves: seq<bool>): (r: seq<bool>)
    requires InBound(from) && |moves| == BoardSize
    ensures |r| == BoardSize
  {
    Masked(moves, SafeTable(b, from, c), 0)
  }

  /** A candidate survives the filter exactly when its move leaves the mover not in check. */
  lemma FlatFilterFacts(b: BoardState, from: Square, c: Color, moves: seq<bool>, to: Square)
    requires InBound(from) && |moves| == BoardSize && InBound(to)
    ensures var i := ToIndex1D(to);
      0 <= i < BoardSize && (FlatFilter(b, from, c, moves)[i] <==>
        moves[i] && FlatMove(b, from, to).Some? && FlatInCheck(FlatMove(b, from, to).value.board, c) == Some(false))
  {
    IndexRoundTrip(to, 0);
  }

  /** Clearing candidates keeps the undos exact and the tests defined. */
  lemma ClearCandidate(b: BoardState, from: Square, c: Color, moves: seq<bool>, i: int, keep: bool)
    requires InBound(from) && |moves| == BoardSize && 0 <= i < BoardSize
    requires ExactUndos(b, from, moves) && FlatDefined(b, from, c, moves)
    ensures ExactUndos(b, from, moves[i := moves[i] && keep]) && FlatDefined(b, from, c, moves[i := moves[i] && keep])
  {
  }

  /**
   * When every undo is exact, the filter leaves the board as it was and
   * keeps exactly the candidates after which the mover is not in check.
   */
  lemma {:induction false} FilterFromExact(b: BoardState, from: Square, c: Color, moves: seq<bool>, i: int)
    requires InBound(from) && |moves| == BoardSize && 0 <= i <= BoardSize
    requires ExactUndos(b, from, moves) && FlatDefined(b, from, c, moves)
    ensures FilterFrom(b, from, c, moves, i) == Some((b, Masked(moves, SafeTable(b, from, c), i)))
    decreases BoardSize - i
  {
    var safe := SafeTable(b, from, c);
    if i == BoardSize {
      assert Masked(moves, safe, i) == moves;
    } else {
      var next := moves[i := moves[i] && safe[i]];
      FilterStepExact(b, from, c, moves, i);
      FilterFromUnfold(b, from, c, moves, i, (b, next));
      ClearCandidate(b, from, c, moves, i, safe[i]);
      FilterFromExact(b, from, c, next, i + 1);
      MaskedStep(moves, safe, i);
    }
  }

  /** The filter loop from i on is its step at i followed by the loop from i + 1 on. */
  lemma FilterFromUnfold(b: BoardState, from: Square, c: Color, moves: seq<bool>, i: int, s: (BoardState, seq<bool>))
    requires InBound(from) && |moves| == BoardSize && 0 <= i < BoardSize
    requires FilterStep(b, from, c, moves, i) == Some(s) && |s.1| == BoardSize
    ensures FilterFrom(b, from, c, moves, i) == FilterFrom(s.0, from, c, s.1, i + 1)
  {
  }

  /** One exact step: the board comes back, and entry i keeps its mark iff the move leaves the mover safe. */
  lemma FilterStepExact(b: BoardState, from: Square, c: Color, moves: seq<bool>, i: int)
    requires InBound(from) && |moves| == BoardSize && 0 <= i < BoardSize
    requires ExactUndos(b, from, moves) && FlatDefined(b, from, c, moves)
    ensures FilterStep(b, from, c, moves, i) == Some((b, moves[i := moves[i] && SafeTable(b, from, c)[i]]))
  {
    var to := ToIndex2D(i);
    var next := moves[i := moves[i] && SafeTable(b, from, c)[i]];
    if moves[i] {
      var sim := FlatSimulatedCheck(b, from, to, c);
      assert sim.Some? && FlatMove(b, from, to).Some?;
      assert IsEmptyOn(b, to) || FlatMove(b, from, to).value.position == to;
      UndoExact(b, from, to);
      if sim.value {
        assert next == moves[i := false];
      } else {
        assert next == moves;
      }
    } else {
      assert next == moves;
    }
  }

  /**
   * Whatever the undos do, the filter only clears entries, never touches
   * the entries before i, and leaves every cell as it was except marked
   * candidate destinations, which it may empty.
   */
  lemma {:induction false} FilterFromFrame(b: BoardState, from: Square, c: Color, moves: seq<bool>, i: int)
    requires InBound(from) && |moves| == BoardSize && 0 <= i <= BoardSize
    requires FilterFrom(b, from, c, moves, i).Some?
    ensures var r := FilterFrom(b, from, c, moves, i).value;
      && |r.1| == BoardSize
      && (forall j :: 0 <= j < BoardSize && r.1[j] ==> moves[j])
      && (forall j :: 0 <= j < i ==> r.1[j] == moves[j])
      && (forall j :: 0 <= j < BoardSize ==> r.0[j] == b[j] || (i <= j && moves[j] && r.0[j].None?))
    decreases BoardSize - i
  {
    if i < BoardSize {
      var s := FilterStep(b, from, c, moves, i).value;
      FilterStepFrame(b, from, c, moves, i);
      FilterFromFrame(s.0, from, c, s.1, i + 1);
    }
  }

  /** One step of the filter changes at most entry i of the table and cell i of the board, which it may empty. */
  lemma FilterStepFrame(b: BoardState, from: Square, c: Color, moves: seq<bool>, i: int)
    requires InBound(from) && |moves| == BoardSize && 0 <= i < BoardSize
    requires FilterStep(b, from, c, moves, i).Some?
    ensures var s := FilterStep(b, from, c, moves, i).value;
      && (forall j :: 0 <= j < BoardSize && j != i ==> s.1[j] == moves[j])
      && (s.1[i] ==> moves[i])
      && (forall j :: 0 <= j < BoardSize && j != i ==> s.0[j] == b[j])
      && (s.0[i] == b[i] || (moves[i] && s.0[i].None?))
  {
    if moves[i] {
      var to := ToIndex2D(i);
      IndexRoundTrip(to, i);
      forall j | 0 <= j < BoardSize && j != i
        ensures UndoOf(b, from, to)[j] == b[j]
      {
        IndexRoundTrip(ToIndex2D(j), j);
        UndoCell(b, from, to, ToIndex2D(j));
      }
      UndoCell(b, from, to, to);
    }
  }

  /** The board and table the filter loop started at i has reached when it comes to candidate j. */
  function FilterStateAt(b: BoardState, from: Square, c: Color, moves: seq<bool>, i: int, j: int): Option<(BoardState, seq<bool>)>
    requires InBound(from) && |moves| == BoardSize && 0 <= i <= j <= BoardSize
    decreases j - i
  {
    if i == j then Some((b, moves))
    else
      match FilterStep(b, from, c, moves, i)
      case None => None
      case Some(s) => FilterStateAt(s.0, from, c, s.1, i + 1, j)
  }

  /** An entry a step keeps marked was a candidate whose move left the mover not in check. */
  lemma FilterStepKept(b: BoardState, from: Square, c: Color, moves: seq<bool>, i: int)
    requires InBound(from) && |moves| == BoardSize && 0 <= i < BoardSize
    requires FilterStep(b, from, c, moves, i).Some? && FilterStep(b, from, c, moves, i).value.1[i]
    ensures moves[i] && FlatSimulatedCheck(b, from, ToIndex2D(i), c) == Some(false)
  {
  }

  /**
   * Whatever the undos do, an entry j the filter keeps was a candidate,
   * and playing it on the board the filter had reached at j left the
   * mover not in check.
   */
  lemma {:induction false} FilterKeptSafe(b: BoardState, from: Square, c: Color, moves: seq<bool>, i: int, j: int)
    requires InBound(from) && |moves| == BoardSize && 0 <= i <= j < BoardSize
    requires FilterFrom(b, from, c, moves, i).Some? && FilterFrom(b, from, c, moves, i).value.1[j]
    ensures moves[j]
    ensures FilterStateAt(b, from, c, moves, i, j).Some?
    ensures FlatSimulatedCheck(FilterStateAt(b, from, c, moves, i, j).value.0, from, ToIndex2D(j), c) == Some(false)
    decreases j - i
  {
    var s := FilterStep(b, from, c, moves, i).value;
    FilterFromUnfold(b, from, c, moves, i, s);
    FilterStepFrame(b, from, c, moves, i);
    FilterFromFrame(s.0, from, c, s.1, i + 1);
    if i == j {
      FilterStepKept(b, from, c, moves, i);
    } else {
      FilterKeptSafe(s.0, from, c, s.1, i + 1, j);
    }
  }

  // ---------------------------------------------------------------------
  // Computing every table of the side to move
  // ---------------------------------------------------------------------

  /**
   * The work on source index src: for a piece of colour c, its generated
   * table filtered, with the board the filter leaves; the empty table
   * otherwise.
   */
  function SourceStep(b: BoardState, c: Color, src: int): Option<(BoardState, seq<bool>)>
    requires 0 <= src < BoardSize
  {
    var from := ToIndex2D(src);
    if !IsColorOn(b, from, c) then Some((b, NoMoves()))
    else FilterFrom(b, from, c, TableOf(PseudoMoves(b, from)), 0)
  }

  /** The board after the sources below n have been worked on; None when some filter aborts. */
  function BoardAfter(b: BoardState, c: Color, n: int): Option<BoardState>
    requires 0 <= n <= BoardSize
    decreases n
  {
    if n == 0 then Some(b)
    else
      match BoardAfter(b, c, n - 1)
      case None => None
      case Some(bb) =>
        match SourceStep(bb, c, n - 1)
        case None => None
        case Some(s) => Some(s.0)
  }

  /** The table that source n gets, computed on the board the earlier sources left. */
  function RowAfter(b: BoardState, c: Color, n: int): Option<seq<bool>>
    requires 0 <= n < BoardSize
  {
    match BoardAfter(b, c, n)
    case None => None
    case Some(bb) =>
      match SourceStep(bb, c, n)
      case None => None
      case Some(s) => Some(s.1)
  }

  /** The whole computation runs without an abort. */
  predicate ComputeDefinedFlat(b: BoardState, c: Color)
  {
    BoardAfter(b, c, BoardSize).Some?
  }

  /** A computation that reaches source n has reached every earlier one and given it a table. */
  lemma {:induction false} BoardAfterPrefix(b: BoardState, c: Color, n: int, m: int)
    requires 0 <= m <= n <= BoardSize && BoardAfter(b, c, n).Some?
    ensures BoardAfter(b, c, m).Some?
    ensures m < n ==> RowAfter(b, c, m).Some? && |RowAfter(b, c, m).value| == BoardSize
    decreases n - m
  {
    if m < n {
      BoardAfterPrefix(b, c, n, m + 1);
      SourceStepLength(BoardAfter(b, c, m).value, c, m);
    }
  }

  /** The computation that reaches source n and works on it reaches source n + 1 with that work's board and gives n its table. */
  lemma AfterStep(b: BoardState, c: Color, n: int, s: (BoardState, seq<bool>))
    requires 0 <= n < BoardSize && BoardAfter(b, c, n).Some? && SourceStep(BoardAfter(b, c, n).value, c, n) == Some(s)
    ensures BoardAfter(b, c, n + 1) == Some(s.0) && RowAfter(b, c, n) == Some(s.1)
  {
  }

  /** A computation that runs to the end can work on each of its sources. */
  lemma SourceDefined(b: BoardState, c: Color, n: int)
    requires 0 <= n < BoardSize && ComputeDefinedFlat(b, c)
    ensures BoardAfter(b, c, n).Some? && SourceStep(BoardAfter(b, c, n).value, c, n).Some?
  {
    BoardAfterPrefix(b, c, BoardSize, n + 1);
  }

  lemma SourceStepLength(b: BoardState, c: Color, src: int)
    requires 0 <= src < BoardSize && SourceStep(b, c, src).Some?
    ensures |SourceStep(b, c, src).value.1| == BoardSize
  {
    var from := ToIndex2D(src);
    if IsColorOn(b, from, c) {
      FilterFromFrame(b, from, c, TableOf(PseudoMoves(b, from)), 0);
    }
  }

  /**
   * Whatever the undos do, a source's work never changes a cell held by the
   * side to move: the filter only empties generated destinations, and the
   * generator never marks a square of the mover's own colour.
   */
  lemma SourceKeepsOwn(b: BoardState, c: Color, n: int, k: int)
    requires 0 <= n < BoardSize && 0 <= k < BoardSize && SourceStep(b, c, n).Some?
    requires IsColorOn(b, ToIndex2D(k), c)
    ensures SourceStep(b, c, n).value.0[k] == b[k]
  {
    var from := ToIndex2D(n);
    IndexRoundTrip(from, n);
    IndexRoundTrip(ToIndex2D(k), k);
    if IsColorOn(b, from, c) {
      var moves := TableOf(PseudoMoves(b, from));
      FilterFromFrame(b, from, c, moves, 0);
      if moves[k] {
        PseudoMovesSound(b, from, ToIndex2D(k));
      }
    }
  }

  /** A cell held by the side to move when source m is reached stays as it is for the rest of the computation. */
  lemma {:induction false} BoardAfterKeepsOwn(b: BoardState, c: Color, m: int, n: int, k: int)
    requires 0 <= m <= n <= BoardSize && 0 <= k < BoardSize && BoardAfter(b, c, n).Some?
    requires BoardAfter(b, c, m).Some? && IsColorOn(BoardAfter(b, c, m).value, ToIndex2D(k), c)
    ensures BoardAfter(b, c, n).value[k] == BoardAfter(b, c, m).value[k]
    decreases n - m
  {
    if m < n {
      BoardAfterPrefix(b, c, n, n - 1);
      BoardAfterKeepsOwn(b, c, m, n - 1, k);
      var bb := BoardAfter(b, c, n - 1).value;
      IndexRoundTrip(ToIndex2D(k), k);
      assert IsColorOn(bb, ToIndex2D(k), c);
      SourceKeepsOwn(bb, c, n - 1, k);
    }
  }

  /**
   * A source whose table has a marked entry held a piece of the side to
   * move, and still holds it when the whole computation is done.
   */
  lemma MarkedRowSource(b: BoardState, c: Color, src: int, dst: int)
    requires 0 <= src < BoardSize && 0 <= dst < BoardSize && BoardAfter(b, c, BoardSize).Some?
    requires RowAfter(b, c, src).Some? && |RowAfter(b, c, src).value| == BoardSize && RowAfter(b, c, src).value[dst]
    ensures IsColorOn(BoardAfter(b, c, BoardSize).value, ToIndex2D(src), c)
  {
    BoardAfterPrefix(b, c, BoardSize, src + 1);
    var bb := BoardAfter(b, c, src).value;
    var from := ToIndex2D(src);
    IndexRoundTrip(from, src);
    assert IsColorOn(bb, from, c);
    var s := SourceStep(bb, c, src).value;
    AfterStep(b, c, src, s);
    SourceKeepsOwn(bb, c, src, src);
    BoardAfterKeepsOwn(b, c, src + 1, BoardSize, src);
  }

  /**
   * With a king of colour c on the board, moving a piece of c onto a square
   * c does not hold neither aborts as a move nor as a check test: the king
   * stays, on its square or, when it is the mover, on the destination.
   */
  lemma FlatMoveKeepsKing(b: BoardState, from: Square, to: Square, c: Color)
    requires InBound(from) && InBound(to) && IsColorOn(b, from, c) && !IsColorOn(b, to, c) && HasKing(b, c)
    ensures FlatMove(b, from, to).Some? && HasKing(FlatMove(b, from, to).value.board, c)
    ensures FlatSimulatedCheck(b, from, to, c).Some?
  {
    var k :| InBound(k) && IsKingOf(b, k, c);
    FlatMoveFacts(b, from, to, k);
    var m := FlatMove(b, from, to).value;
    if k == from {
      assert IsKingOf(m.board, to, c);
    } else {
      assert IsKingOf(m.board, k, c);
    }
    FlatInCheckFacts(m.board, c);
  }

  /**
   * What stays true while a filter runs: the mover still stands on from,
   * colour c has a king, and no marked destination is held by c.
   */
  ghost predicate FilterReady(b: BoardState, from: Square, c: Color, moves: seq<bool>)
    requires InBound(from) && |moves| == BoardSize
  {
    && IsColorOn(b, from, c) && HasKing(b, c)
    && forall j :: 0 <= j < BoardSize && moves[j] ==> !IsColorOn(b, ToIndex2D(j), c)
  }

  /** A step of a ready filter runs without an abort and leaves the filter ready. */
  lemma FilterStepReady(b: BoardState, from: Square, c: Color, moves: seq<bool>, i: int)
    requires InBound(from) && |moves| == BoardSize && 0 <= i < BoardSize && FilterReady(b, from, c, moves)
    ensures FilterStep(b, from, c, moves, i).Some?
    ensures FilterReady(FilterStep(b, from, c, moves, i).value.0, from, c, FilterStep(b, from, c, moves, i).value.1)
  {
    if moves[i] {
      var to := ToIndex2D(i);
      IndexRoundTrip(to, i);
      FlatMoveKeepsKing(b, from, to, c);
      var s := FilterStep(b, from, c, moves, i).value;
      FilterStepFrame(b, from, c, moves, i);
      IndexRoundTrip(from, i);
      assert IsColorOn(s.0, from, c);
      var k :| InBound(k) && IsKingOf(b, k, c);
      IndexRoundTrip(k, i);
      assert IsKingOf(s.0, k, c);
      forall j | 0 <= j < BoardSize && s.1[j]
        ensures !IsColorOn(s.0, ToIndex2D(j), c)
      {
        IndexRoundTrip(ToIndex2D(j), j);
      }
    }
  }

  /** A ready filter loop runs to its end without an abort. */
  lemma {:induction false} FilterFromReady(b: BoardState, from: Square, c: Color, moves: seq<bool>, i: int)
    requires InBound(from) && |moves| == BoardSize && 0 <= i <= BoardSize && FilterReady(b, from, c, moves)
    ensures FilterFrom(b, from, c, moves, i).Some?
    decreases BoardSize - i
  {
    if i < BoardSize {
      FilterStepReady(b, from, c, moves, i);
      var s := FilterStep(b, from, c, moves, i).value;
      FilterFromReady(s.0, from, c, s.1, i + 1);
    }
  }

  /** With a king of c on the board, a source's work runs without an abort and leaves that king on the board. */
  lemma SourceDefinedWithKing(b: BoardState, c: Color, n: int)
    requires 0 <= n < BoardSize && HasKing(b, c)
    ensures SourceStep(b, c, n).Some? && HasKing(SourceStep(b, c, n).value.0, c)
  {
    var from := ToIndex2D(n);
    IndexRoundTrip(from, n);
    if IsColorOn(b, from, c) {
      var moves := TableOf(PseudoMoves(b, from));
      forall j | 0 <= j < BoardSize && moves[j]
        ensures !IsColorOn(b, ToIndex2D(j), c)
      {
        IndexRoundTrip(ToIndex2D(j), j);
        PseudoMovesSound(b, from, ToIndex2D(j));
      }
      FilterFromReady(b, from, c, moves, 0);
    }
    var k :| InBound(k) && IsKingOf(b, k, c);
    IndexRoundTrip(k, n);
    SourceKeepsOwn(b, c, n, ToIndex1D(k));
    assert IsKingOf(SourceStep(b, c, n).value.0, k, c);
  }

  /** With a king of c on the board, the computation reaches every source and keeps a king of c. */
  lemma {:induction false} BoardAfterWithKing(b: BoardState, c: Color, n: int)
    requires 0 <= n <= BoardSize && HasKing(b, c)
    ensures BoardAfter(b, c, n).Some? && HasKing(BoardAfter(b, c, n).value, c)
    decreases n
  {
    if n > 0 {
      BoardAfterWithKing(b, c, n - 1);
      SourceDefinedWithKing(BoardAfter(b, c, n - 1).value, c, n - 1);
    }
  }

  /**
   * Whatever the undos do, the whole computation runs without an abort as
   * soon as the side to move has a king, which is all the king search of
   * the check test demands.
   */
  lemma FlatComputeDefinedWithKing(b: BoardState, c: Color)
    requires HasKing(b, c)
    ensures ComputeDefinedFlat(b, c)
  {
    BoardAfterWithKing(b, c, BoardSize);
  }

  /** Every filter of the computation on b has exact undos. */
  predicate ExactSourceUndos(b: BoardState, c: Color)
  {
    forall src :: 0 <= src < BoardSize && IsColorOn(b, ToIndex2D(src), c) ==>
      ExactUndos(b, ToIndex2D(src), TableOf(PseudoMoves(b, ToIndex2D(src))))
  }

  /** With a king of c on the board, exact undos are all it takes for every filter to be exact and defined. */
  lemma ExactFiltersWithKing(b: BoardState, c: Color)
    requires HasKing(b, c) && ExactSourceUndos(b, c)
    ensures ExactFilters(b, c)
  {
    forall src | 0 <= src < BoardSize && IsColorOn(b, ToIndex2D(src), c)
      ensures FlatDefined(b, ToIndex2D(src), c, TableOf(PseudoMoves(b, ToIndex2D(src))))
    {
      var from := ToIndex2D(src);
      forall i | 0 <= i < BoardSize && TableOf(PseudoMoves(b, from))[i]
        ensures FlatSimulatedCheck(b, from, ToIndex2D(i), c).Some?
      {
        IndexRoundTrip(ToIndex2D(i), i);
        PseudoMovesSound(b, from, ToIndex2D(i));
        FlatMoveKeepsKing(b, from, ToIndex2D(i), c);
      }
    }
  }

  /** Every filter of the computation on b has exact undos and runs without an abort. */
  predicate ExactFilters(b: BoardState, c: Color)
  {
    forall src :: 0 <= src < BoardSize && IsColorOn(b, ToIndex2D(src), c) ==>
      && ExactUndos(b, ToIndex2D(src), TableOf(PseudoMoves(b, ToIndex2D(src))))
      && FlatDefined(b, ToIndex2D(src), c, TableOf(PseudoMoves(b, ToIndex2D(src))))
  }

  /** The legal table of source src on b: its pseudo-legal moves that leave colour c safe. */
  function FlatLegalRow(b: BoardState, c: Color, src: int): (r: seq<bool>)
    requires 0 <= src < BoardSize
    ensures |r| == BoardSize
  {
    var from := ToIndex2D(src);
    if !IsColorOn(b, from, c) then NoMoves()
    else FlatFilter(b, from, c, TableOf(PseudoMoves(b, from)))
  }

  /**
   * When every filter's undos are exact, the computation leaves the board as
   * it was and gives each source its legal table on that board.
   */
  lemma {:induction false} ComputeExact(b: BoardState, c: Color, n: int)
    requires ExactFilters(b, c) && 0 <= n <= BoardSize
    ensures BoardAfter(b, c, n) == Some(b)
    ensures n < BoardSize ==> RowAfter(b, c, n) == Some(FlatLegalRow(b, c, n))
    decreases n
  {
    if n > 0 {
      ComputeExact(b, c, n - 1);
      SourceExact(b, c, n - 1);
    }
    if n < BoardSize {
      SourceExact(b, c, n);
    }
  }

  lemma SourceExact(b: BoardState, c: Color, src: int)
    requires ExactFilters(b, c) && 0 <= src < BoardSize
    ensures SourceStep(b, c, src) == Some((b, FlatLegalRow(b, c, src)))
  {
    var from := ToIndex2D(src);
    if IsColorOn(b, from, c) {
      FilterFromExact(b, from, c, TableOf(PseudoMoves(b, from)), 0);
    }
  }

  // ---------------------------------------------------------------------
  // The post-move sweep
  // ---------------------------------------------------------------------

  /** One cell of the sweep: the opponent's pawns lose their en-passant flag. */
  function FlatPostMoveCell(cell: Option<Piece>, turn: Color): Option<Piece>
  {
    match cell
    case None => None
    case Some(p) => Some(if p.color == EnemyColor(turn) && p.pieceType.Pawn? then p.(pieceType := Pawn(false)) else p)
  }

  function FlatPostMove(b: BoardState, turn: Color): BoardState
  {
    seq(BoardSize, i requires 0 <= i < BoardSize => FlatPostMoveCell(b[i], turn))
  }

  /**
   * The sweep clears the flag of the opponent's pawns, keeping their colour
   * and moved flag, and changes no other square and no other piece; no
   * pawn is promoted.
   */
  lemma FlatPostMoveFacts(b: BoardState, turn: Color, q: Square)
    requires InBound(q)
    ensures var r := FlatPostMove(b, turn);
      && (IsEmptyOn(r, q) <==> IsEmptyOn(b, q))
      && (GetPiece(b, q).Some? ==>
            var p := GetPiece(b, q).value;
            var s := GetPiece(r, q).value;
            && (p.color == EnemyColor(turn) && p.pieceType.Pawn? ==> s == p.(pieceType := Pawn(false)))
            && (p.color == turn || !p.pieceType.Pawn? ==> s == p))
  {
    IndexRoundTrip(q, 0);
    EnemyColorInvolution(turn);
  }
}
