/**
 * The pseudo-legal move generator: per-piece movement rules that ignore
 * whether the mover's own king ends up attacked. Each rule marks squares
 * in a 64-entry table indexed y * 8 + x; marking only ever sets entries,
 * so calls accumulate. Each rule is specified by a set-valued function of
 * the board, and the lemmas below characterise those sets independently.
 * The generator has no castling and no en-passant candidates.
 */
module MoveCalculator {
  import opened Wrappers
  import opened Pieces
  import opened Squares

  // ---------------------------------------------------------------------
  // Specification of the rules
  // ---------------------------------------------------------------------

  /** A unit step of a ray: each component in {-1, 0, 1}, not both 0. */
  predicate IsDirection(d: Square)
  {
    -1 <= d.0 <= 1 && -1 <= d.1 <= 1 && d != (0, 0)
  }

  /** k steps of a unit component, written without multiplication. */
  function Scale(k: int, d: int): int
  {
    if d == 1 then k else if d == -1 then -k else 0
  }

  /** The square k steps from p in direction d. */
  function Shift(p: Square, d: Square, k: int): Square
  {
    (p.0 + Scale(k, d.0), p.1 + Scale(k, d.1))
  }

  /** A square a stepping piece may land on: on the board, empty or enemy-held. */
  predicate IsOpen(b: BoardState, q: Square, enemy: Color)
  {
    InBound(q) && (IsEmptyOn(b, q) || IsColorOn(b, q, enemy))
  }

  /** The squares open to a stepping piece whose enemy has the given colour. */
  function OpenSquares(b: BoardState, enemy: Color): (r: set<Square>)
    ensures forall q :: q in r <==> IsOpen(b, q, enemy)
  {
    set x, y | 0 <= x < BoardWidth && 0 <= y < BoardHeight && IsOpen(b, (x, y), enemy) :: (x, y)
  }

  /** What a stepping piece marks on square q: q itself if it is among the open squares, else nothing. */
  function StepOn(open: set<Square>, q: Square): set<Square>
  {
    if q in open then {q} else {}
  }

  /** The rank direction of a pawn: -1 for White (towards rank 0), +1 for Black. */
  function Forward(c: Color): int
  {
    if c == White then -1 else 1
  }

  /** A pawn's capture square on file offset dx: marked only when an enemy stands there. */
  function PawnAttack(b: BoardState, p: Square, dx: int, dir: int, enemy: Color): set<Square>
  {
    var q := (p.0 + dx, p.1 + dir);
    if InBound(q) && IsColorOn(b, q, enemy) then {q} else {}
  }

  /** The squares a pawn's forward advance marks: one step, and a second one if unmoved. */
  function PawnAdvance(b: BoardState, p: Square, piece: Piece): set<Square>
  {
    var dir := Forward(piece.color);
    var one := (p.0, p.1 + dir);
    var two := (p.0, p.1 + 2 * dir);
    var canOne := InBound(one) && IsEmptyOn(b, one);
    var canTwo := canOne && !piece.hasMoved && InBound(two) && IsEmptyOn(b, two);
    (if canOne then {one} else {}) + (if canTwo then {two} else {})
  }

  function PawnMoves(b: BoardState, p: Square, piece: Piece): set<Square>
  {
    var dir := Forward(piece.color);
    var enemy := EnemyColor(piece.color);
    PawnAdvance(b, p, piece) + PawnAttack(b, p, -1, dir, enemy) + PawnAttack(b, p, 1, dir, enemy)
  }

  const KnightDirs: seq<Square> := [(-2, -1), (-2, 1), (2, -1), (2, 1), (-1, -2), (-1, 2), (1, -2), (1, 2)]

  /** The open squares among the given offsets from p. */
  function OffsetMoves(p: Square, open: set<Square>, offsets: seq<Square>): set<Square>
    decreases |offsets|
  {
    if offsets == [] then {}
    else
      var d := offsets[|offsets| - 1];
      var q := (p.0 + d.0, p.1 + d.1);
      OffsetMoves(p, open, offsets[..|offsets| - 1]) + StepOn(open, q)
  }

  function KnightMoves(b: BoardState, p: Square, piece: Piece): set<Square>
  {
    OffsetMoves(p, OpenSquares(b, EnemyColor(piece.color)), KnightDirs)
  }

  /** The offset (mx, my) of the king's loop as a set: its square if it is open and not (0, 0). */
  function KingStep(p: Square, open: set<Square>, mx: int, my: int): set<Square>
  {
    if (mx, my) != (0, 0) then StepOn(open, (p.0 + mx, p.1 + my)) else {}
  }

  /** The open squares other than p in column p.0 + mx and rows p.1 - 1 .. p.1 + my - 1. */
  function KingColumn(p: Square, open: set<Square>, mx: int, my: int): set<Square>
  {
    set q | q in open && q.0 == p.0 + mx && -1 <= q.1 - p.1 < my && q != p
  }

  /** The open neighbours of p in columns p.0 - 1 .. p.0 + mx - 1. */
  function KingColumns(p: Square, open: set<Square>, mx: int): set<Square>
  {
    set q | q in open && -1 <= q.0 - p.0 < mx && -1 <= q.1 - p.1 <= 1 && q != p
  }

  /** The king's inner loop starts a column with nothing marked in it. */
  lemma KingColumnStart(p: Square, open: set<Square>, mx: int, done: set<Square>)
    ensures done + KingColumn(p, open, mx, -1) == done
  {
    assert KingColumn(p, open, mx, -1) == {};
  }

  /** Offset (mx, my) of the king's inner loop adds its own square to the column, and (0, 0) adds nothing. */
  lemma KingColumnNext(p: Square, open: set<Square>, mx: int, my: int)
    requires -1 <= my
    ensures KingColumn(p, open, mx, my + 1) == KingColumn(p, open, mx, my) + KingStep(p, open, mx, my)
    ensures (mx, my) == (0, 0) ==> KingColumn(p, open, mx, my + 1) == KingColumn(p, open, mx, my)
  {
    var q := (p.0 + mx, p.1 + my);
    assert forall r :: r in KingColumn(p, open, mx, my + 1) <==> r in KingColumn(p, open, mx, my) || (r == q && r in KingStep(p, open, mx, my));
  }

  /** A finished column of the king's inner loop completes the outer loop's next column. */
  lemma KingColumnsNext(p: Square, open: set<Square>, mx: int)
    requires -1 <= mx
    ensures KingColumns(p, open, mx + 1) == KingColumns(p, open, mx) + KingColumn(p, open, mx, 2)
  {
    assert forall r :: r in KingColumns(p, open, mx + 1) <==> r in KingColumns(p, open, mx) || r in KingColumn(p, open, mx, 2);
  }

  /** The outer loop starts with nothing marked. */
  lemma KingColumnsStart(p: Square, open: set<Square>)
    ensures KingColumns(p, open, -1) == {}
  {
  }

  function KingMoves(b: BoardState, p: Square, piece: Piece): set<Square>
  {
    KingColumns(p, OpenSquares(b, EnemyColor(piece.color)), 2)
  }

  function RayMeasure(s: int, d: int): int
  {
    if d > 0 then 8 - s else if d < 0 then s + 1 else 0
  }

  /**
   * The squares a ray marks from q onwards: each empty square, and the first
   * occupied one if it is enemy-held; the ray ends at the first occupied
   * square or the edge.
   */
  function Ray(b: BoardState, enemy: Color, q: Square, d: Square): set<Square>
    requires IsDirection(d)
    decreases RayMeasure(q.0, d.0) + RayMeasure(q.1, d.1)
  {
    if !InBound(q) then {}
    else if IsEmptyOn(b, q) then {q} + Ray(b, enemy, (q.0 + d.0, q.1 + d.1), d)
    else if IsColorOn(b, q, enemy) then {q}
    else {}
  }

  /** done together with the ray from q make up total. */
  predicate RaySplit(b: BoardState, enemy: Color, done: set<Square>, q: Square, d: Square, total: set<Square>)
    requires IsDirection(d)
  {
    done + Ray(b, enemy, q, d) == total
  }

  /**
   * One step of a ray: if done and the ray from q make up total, then what the
   * step at q marks (nothing off the board or on an own piece, q itself on an
   * empty or enemy-held square) and the rest of the ray still make up total.
   */
  lemma RayAdvance(b: BoardState, enemy: Color, done: set<Square>, x: int, y: int, d: Square, total: set<Square>)
    requires IsDirection(d) && RaySplit(b, enemy, done, (x, y), d, total)
    ensures !InBound((x, y)) ==> done == total
    ensures InBound((x, y)) && IsEmptyOn(b, (x, y)) ==> RaySplit(b, enemy, done + {(x, y)}, (x + d.0, y + d.1), d, total)
    ensures InBound((x, y)) && !IsEmptyOn(b, (x, y)) ==>
      done + (if IsColorOn(b, (x, y), enemy) then {(x, y)} else {}) == total
  {
    if InBound((x, y)) && IsEmptyOn(b, (x, y)) {
      assert done + Ray(b, enemy, (x, y), d) == (done + {(x, y)}) + Ray(b, enemy, (x + d.0, y + d.1), d);
    }
  }

  /** The ray cast from p in direction d (p itself excluded). */
  function RayFrom(b: BoardState, p: Square, d: Square, enemy: Color): set<Square>
    requires IsDirection(d)
  {
    Ray(b, enemy, (p.0 + d.0, p.1 + d.1), d)
  }

  predicate AllDirections(dirs: seq<Square>)
  {
    forall k :: 0 <= k < |dirs| ==> IsDirection(dirs[k])
  }

  /** The union of the rays from p in the given directions. */
  function RaysFrom(b: BoardState, p: Square, enemy: Color, dirs: seq<Square>): set<Square>
    requires AllDirections(dirs)
    decreases |dirs|
  {
    if dirs == [] then {}
    else RaysFrom(b, p, enemy, dirs[..|dirs| - 1]) + RayFrom(b, p, dirs[|dirs| - 1], enemy)
  }

  const OrthogonalDirs: seq<Square> := [(1, 0), (-1, 0), (0, 1), (0, -1)]

  /** The diagonal directions in the generator's loop order (x outer, y inner). */
  const DiagonalDirs: seq<Square> := [(-1, -1), (-1, 1), (1, -1), (1, 1)]

  function OrthogonalMoves(b: BoardState, p: Square, enemy: Color): set<Square>
  {
    RaysFrom(b, p, enemy, OrthogonalDirs)
  }

  function DiagonalMoves(b: BoardState, p: Square, enemy: Color): set<Square>
  {
    RaysFrom(b, p, enemy, DiagonalDirs)
  }

  /** The squares the piece on p may move to, ignoring check; none for an empty square. */
  function PseudoMoves(b: BoardState, p: Square): set<Square>
    requires InBound(p)
  {
    match GetPiece(b, p)
    case None => {}
    case Some(piece) =>
      var enemy := EnemyColor(piece.color);
      match piece.pieceType
      case Pawn(_) => PawnMoves(b, p, piece)
      case Knight => KnightMoves(b, p, piece)
      case Bishop => DiagonalMoves(b, p, enemy)
      case Rook => OrthogonalMoves(b, p, enemy)
      case Queen => DiagonalMoves(b, p, enemy) + OrthogonalMoves(b, p, enemy)
      case King => KingMoves(b, p, piece)
  }

  /** Per flat index, the pseudo-legal moves of the piece there if it has colour c, else none. */
  function PieceAttacks(b: BoardState, c: Color): (r: seq<set<Square>>)
    ensures |r| == BoardSize
  {
    seq(BoardSize, i requires 0 <= i < BoardSize =>
      var p := ToIndex2D(i);
      if IsColorOn(b, p, c) then PseudoMoves(b, p) else {})
  }

  /** The union of the first n sets of a sequence. */
  function UnionPrefix(sets: seq<set<Square>>, n: int): set<Square>
    requires 0 <= n <= |sets|
    decreases n
  {
    if n == 0 then {} else UnionPrefix(sets, n - 1) + sets[n - 1]
  }

  /** The union of the pseudo-legal moves of the pieces of colour c on flat indices [0, n). */
  function AttacksBelow(b: BoardState, c: Color, n: int): set<Square>
    requires 0 <= n <= BoardSize
  {
    UnionPrefix(PieceAttacks(b, c), n)
  }

  /** Every square some piece of colour c may move to. */
  function Attacks(b: BoardState, c: Color): set<Square>
  {
    AttacksBelow(b, c, BoardSize)
  }

  /** The table with no square marked. */
  function NoMoves(): seq<bool>
  {
    seq(BoardSize, _ => false)
  }

  /** A move table after is the table before with the squares of s marked in addition. */
  ghost predicate Accumulated(before: seq<bool>, after: seq<bool>, s: set<Square>)
  {
    && |before| == BoardSize && |after| == BoardSize
    && forall i :: 0 <= i < BoardSize ==> after[i] == (before[i] || ToIndex2D(i) in s)
  }

  /** The table of a set of squares. */
  function TableOf(s: set<Square>): (t: seq<bool>)
    ensures Accumulated(NoMoves(), t, s)
  {
    seq(64, i requires 0 <= i < 64 => ToIndex2D(i) in s)
  }

  // ---------------------------------------------------------------------
  // Lemmas about the rules
  // ---------------------------------------------------------------------

  /** A table accumulated from the all-false table is the table of the marked set. */
  lemma AccumulatedFromEmpty(t: seq<bool>, s: set<Square>)
    requires Accumulated(NoMoves(), t, s)
    ensures t == TableOf(s)
  {
  }

  lemma AccumulatedTrans(a: seq<bool>, b: seq<bool>, c: seq<bool>, s: set<Square>, t: set<Square>)
    requires Accumulated(a, b, s) && Accumulated(b, c, t)
    ensures Accumulated(a, c, s + t)
  {
  }

  /** Regrouping the marked set does not change what it says. */
  lemma AccumulatedAssoc(a: seq<bool>, c: seq<bool>, s: set<Square>, t: set<Square>, u: set<Square>)
    requires Accumulated(a, c, s + t + u)
    ensures Accumulated(a, c, s + (t + u))
  {
    assert s + t + u == s + (t + u);
  }

  /** An untouched table marks nothing. */
  lemma AccumulatedNone(a: seq<bool>)
    requires |a| == BoardSize
    ensures Accumulated(a, a, {})
  {
  }

  /** Setting one entry of a table marks exactly that square. */
  lemma MarkOne(before: seq<bool>, q: Square)
    requires |before| == BoardSize && InBound(q)
    ensures Accumulated(before, before[ToIndex1D(q) := true], {q})
  {
    forall i | 0 <= i < BoardSize
      ensures before[ToIndex1D(q) := true][i] == (before[i] || ToIndex2D(i) in {q})
    {
      IndexRoundTrip(q, i);
    }
  }

  /** Every square from m steps up to (not including) k steps from p in direction d is on the board and empty. */
  ghost predicate ClearBetween(b: BoardState, p: Square, d: Square, m: int, k: int)
  {
    forall j :: m <= j < k ==> InBound(Shift(p, d, j)) && IsEmptyOn(b, Shift(p, d, j))
  }

  /** q is k >= m steps from p in direction d, on the board, not held by own, and the way there is clear. */
  ghost predicate RayReach(b: BoardState, own: Color, p: Square, d: Square, m: int, k: int, q: Square)
  {
    m <= k && q == Shift(p, d, k) && InBound(q) && !IsColorOn(b, q, own) && ClearBetween(b, p, d, m, k)
  }

  lemma RayReachOff(b: BoardState, own: Color, p: Square, d: Square, m: int, k: int, q: Square)
    requires IsDirection(d) && !InBound(Shift(p, d, m))
    ensures !RayReach(b, own, p, d, m, k, q)
  {
  }

  lemma RayReachEmpty(b: BoardState, own: Color, p: Square, d: Square, m: int, k: int, q: Square)
    requires InBound(Shift(p, d, m)) && IsEmptyOn(b, Shift(p, d, m))
    ensures RayReach(b, own, p, d, m, k, q) <==>
      (k == m && q == Shift(p, d, m)) || RayReach(b, own, p, d, m + 1, k, q)
  {
    if RayReach(b, own, p, d, m, k, q) && k > m {
      assert ClearBetween(b, p, d, m + 1, k);
    }
    if RayReach(b, own, p, d, m + 1, k, q) {
      assert ClearBetween(b, p, d, m, k);
    }
    if k == m && q == Shift(p, d, m) {
      assert ClearBetween(b, p, d, m, k);
      assert !IsColorOn(b, q, own);
    }
  }

  lemma RayReachBlocked(b: BoardState, own: Color, p: Square, d: Square, m: int, k: int, q: Square)
    requires InBound(Shift(p, d, m)) && !IsEmptyOn(b, Shift(p, d, m))
    ensures RayReach(b, own, p, d, m, k, q) <==>
      k == m && q == Shift(p, d, m) && IsColorOn(b, q, EnemyColor(own))
  {
    CellCases(b, Shift(p, d, m), own);
    if k == m && q == Shift(p, d, m) {
      assert ClearBetween(b, p, d, m, k);
    }
  }

  /** Every square of the ray from Shift(p, d, m) is reached from m steps on. */
  lemma {:induction false} RayMemberReach(b: BoardState, enemy: Color, p: Square, d: Square, m: int, q: Square)
    requires IsDirection(d) && q in Ray(b, enemy, Shift(p, d, m), d)
    ensures exists k :: RayReach(b, EnemyColor(enemy), p, d, m, k, q)
    decreases RayMeasure(Shift(p, d, m).0, d.0) + RayMeasure(Shift(p, d, m).1, d.1)
  {
    var s := Shift(p, d, m);
    var own := EnemyColor(enemy);
    assert Shift(p, d, m + 1) == (s.0 + d.0, s.1 + d.1);
    assert InBound(s);
    RayHead(b, enemy, s, d, q);
    if !IsEmptyOn(b, s) {
      assert IsColorOn(b, s, enemy) && q == s;
      EnemyColorInvolution(enemy);
      RayReachBlocked(b, own, p, d, m, m, q);
      assert RayReach(b, own, p, d, m, m, q);
    } else if q == s {
      RayReachEmpty(b, own, p, d, m, m, q);
      assert RayReach(b, own, p, d, m, m, q);
    } else {
      RayMemberReach(b, enemy, p, d, m + 1, q);
      var k :| RayReach(b, own, p, d, m + 1, k, q);
      RayReachEmpty(b, own, p, d, m, k, q);
      assert RayReach(b, own, p, d, m, k, q);
    }
  }

  /** The first step of a ray: an empty square continues it, an enemy-held one ends it. */
  lemma RayHead(b: BoardState, enemy: Color, s: Square, d: Square, q: Square)
    requires IsDirection(d) && InBound(s)
    ensures IsEmptyOn(b, s) ==> (q in Ray(b, enemy, s, d) <==> q == s || q in Ray(b, enemy, (s.0 + d.0, s.1 + d.1), d))
    ensures !IsEmptyOn(b, s) && IsColorOn(b, s, enemy) ==> (q in Ray(b, enemy, s, d) <==> q == s)
  {
  }

  /** Every square reached from m steps on is on the ray from Shift(p, d, m). */
  lemma {:induction false} RayReachMember(b: BoardState, enemy: Color, p: Square, d: Square, m: int, k: int, q: Square)
    requires IsDirection(d) && RayReach(b, EnemyColor(enemy), p, d, m, k, q)
    ensures q in Ray(b, enemy, Shift(p, d, m), d)
    decreases k - m
  {
    var s := Shift(p, d, m);
    var own := EnemyColor(enemy);
    assert Shift(p, d, m + 1) == (s.0 + d.0, s.1 + d.1);
    if k == m {
      assert q == s && InBound(s);
      RayHead(b, enemy, s, d, q);
      if !IsEmptyOn(b, s) {
        EnemyColorInvolution(enemy);
        RayReachBlocked(b, own, p, d, m, k, q);
      }
    } else {
      assert InBound(s) && IsEmptyOn(b, s);
      RayHead(b, enemy, s, d, q);
      RayReachEmpty(b, own, p, d, m, k, q);
      RayReachMember(b, enemy, p, d, m + 1, k, q);
    }
  }

  /**
   * A square is on the ray from Shift(p, d, m) exactly when it is k >= m steps
   * from p, on the board and not held by the mover's colour (the colour
   * opposite to enemy), with every square strictly before it empty.
   */
  lemma RayExactFrom(b: BoardState, enemy: Color, p: Square, d: Square, m: int, q: Square)
    requires IsDirection(d)
    ensures q in Ray(b, enemy, Shift(p, d, m), d) <==> exists k :: RayReach(b, EnemyColor(enemy), p, d, m, k, q)
  {
    if q in Ray(b, enemy, Shift(p, d, m), d) {
      RayMemberReach(b, enemy, p, d, m, q);
    }
    if exists k :: RayReach(b, EnemyColor(enemy), p, d, m, k, q) {
      var k :| RayReach(b, EnemyColor(enemy), p, d, m, k, q);
      RayReachMember(b, enemy, p, d, m, k, q);
    }
  }

  /**
   * The ray from p in direction d marks exactly the squares k >= 1 steps away
   * that are on the board, not held by the mover's colour, and have only
   * empty squares between them and p.
   */
  lemma RayExact(b: BoardState, p: Square, d: Square, enemy: Color, q: Square)
    requires IsDirection(d)
    ensures q in RayFrom(b, p, d, enemy) <==> exists k :: RayReach(b, EnemyColor(enemy), p, d, 1, k, q)
  {
    assert Shift(p, d, 1) == (p.0 + d.0, p.1 + d.1);
    RayExactFrom(b, enemy, p, d, 1, q);
  }

  /** Every square of a ray is on the board, not the origin, and not held by the mover's colour. */
  lemma RaySound(b: BoardState, p: Square, d: Square, enemy: Color, q: Square)
    requires IsDirection(d) && q in RayFrom(b, p, d, enemy)
    ensures InBound(q) && q != p && !IsColorOn(b, q, EnemyColor(enemy))
  {
    RayExact(b, p, d, enemy, q);
    var k :| RayReach(b, EnemyColor(enemy), p, d, 1, k, q);
  }

  lemma {:induction false} RaysFromMember(b: BoardState, p: Square, enemy: Color, dirs: seq<Square>, q: Square)
    requires AllDirections(dirs)
    ensures q in RaysFrom(b, p, enemy, dirs) <==> exists k :: 0 <= k < |dirs| && q in RayFrom(b, p, dirs[k], enemy)
    decreases |dirs|
  {
    if dirs != [] {
      var init := dirs[..|dirs| - 1];
      RaysFromMember(b, p, enemy, init, q);
      if q in RaysFrom(b, p, enemy, init) {
        var k :| 0 <= k < |init| && q in RayFrom(b, p, init[k], enemy);
        assert dirs[k] == init[k];
      }
      if exists k :: 0 <= k < |dirs| && q in RayFrom(b, p, dirs[k], enemy) {
        var k :| 0 <= k < |dirs| && q in RayFrom(b, p, dirs[k], enemy);
        if k < |dirs| - 1 {
          assert init[k] == dirs[k];
        }
      }
    }
  }

  /** The eight unit directions are the four orthogonal and the four diagonal ones. */
  lemma DirectionsSplit(d: Square)
    ensures IsDirection(d) && (d.0 == 0 || d.1 == 0) <==> d in OrthogonalDirs
    ensures IsDirection(d) && d.0 != 0 && d.1 != 0 <==> d in DiagonalDirs
  {
  }

  /** A rook's (orthogonal) moves: the union of the rays along a rank or a file. */
  lemma OrthogonalExact(b: BoardState, p: Square, enemy: Color, q: Square)
    ensures q in OrthogonalMoves(b, p, enemy) <==>
      exists d :: IsDirection(d) && (d.0 == 0 || d.1 == 0) && q in RayFrom(b, p, d, enemy)
  {
    RaysFromMember(b, p, enemy, OrthogonalDirs, q);
    if exists d :: IsDirection(d) && (d.0 == 0 || d.1 == 0) && q in RayFrom(b, p, d, enemy) {
      var d :| IsDirection(d) && (d.0 == 0 || d.1 == 0) && q in RayFrom(b, p, d, enemy);
      DirectionsSplit(d);
      var k :| 0 <= k < 4 && OrthogonalDirs[k] == d;
    }
  }

  /** A bishop's (diagonal) moves: the union of the four diagonal rays. */
  lemma DiagonalExact(b: BoardState, p: Square, enemy: Color, q: Square)
    ensures q in DiagonalMoves(b, p, enemy) <==>
      exists d :: IsDirection(d) && d.0 != 0 && d.1 != 0 && q in RayFrom(b, p, d, enemy)
  {
    RaysFromMember(b, p, enemy, DiagonalDirs, q);
    if exists d :: IsDirection(d) && d.0 != 0 && d.1 != 0 && q in RayFrom(b, p, d, enemy) {
      var d :| IsDirection(d) && d.0 != 0 && d.1 != 0 && q in RayFrom(b, p, d, enemy);
      DirectionsSplit(d);
      var k :| 0 <= k < 4 && DiagonalDirs[k] == d;
    }
  }

  /** A queen's moves: the union of the rays in all eight directions. */
  lemma QueenExact(b: BoardState, p: Square, q: Square)
    requires InBound(p) && GetPiece(b, p).Some? && GetPiece(b, p).value.pieceType == Queen
    ensures q in PseudoMoves(b, p) <==>
      exists d :: IsDirection(d) && q in RayFrom(b, p, d, EnemyColor(GetPiece(b, p).value.color))
  {
    var enemy := EnemyColor(GetPiece(b, p).value.color);
    OrthogonalExact(b, p, enemy, q);
    DiagonalExact(b, p, enemy, q);
  }

  lemma {:induction false} OffsetMember(p: Square, open: set<Square>, offsets: seq<Square>, q: Square)
    ensures q in OffsetMoves(p, open, offsets) <==>
      q in open && exists k :: 0 <= k < |offsets| && q == (p.0 + offsets[k].0, p.1 + offsets[k].1)
    decreases |offsets|
  {
    if offsets != [] {
      var init := offsets[..|offsets| - 1];
      OffsetMember(p, open, init, q);
      if q in open && exists k :: 0 <= k < |offsets| && q == (p.0 + offsets[k].0, p.1 + offsets[k].1) {
        var k :| 0 <= k < |offsets| && q == (p.0 + offsets[k].0, p.1 + offsets[k].1);
        if k < |offsets| - 1 {
          assert init[k] == offsets[k];
        }
      }
      if q in OffsetMoves(p, open, init) {
        var k :| 0 <= k < |init| && q == (p.0 + init[k].0, p.1 + init[k].1);
        assert offsets[k] == init[k];
      }
    }
  }

  /** The offsets loop after offset k: what it marked before, plus offset k's square if open. */
  lemma OffsetMovesNext(p: Square, open: set<Square>, offsets: seq<Square>, k: int, q: Square)
    requires 0 <= k < |offsets| && q == (p.0 + offsets[k].0, p.1 + offsets[k].1)
    ensures OffsetMoves(p, open, offsets[..k + 1]) == OffsetMoves(p, open, offsets[..k]) + StepOn(open, q)
  {
    var prefix := offsets[..k + 1];
    assert prefix[..|prefix| - 1] == offsets[..k];
    assert (p.0 + prefix[|prefix| - 1].0, p.1 + prefix[|prefix| - 1].1) == q;
  }

  predicate KnightJump(p: Square, q: Square)
  {
    var dx := q.0 - p.0;
    var dy := q.1 - p.1;
    ((dx == 1 || dx == -1) && (dy == 2 || dy == -2)) || ((dx == 2 || dx == -2) && (dy == 1 || dy == -1))
  }

  /**
   * The knight marks exactly the squares a (1, 2) or (2, 1) jump away that are
   * on the board and not held by its own colour.
   */
  lemma KnightExact(b: BoardState, p: Square, piece: Piece, q: Square)
    ensures q in KnightMoves(b, p, piece) <==>
      KnightJump(p, q) && InBound(q) && !IsColorOn(b, q, piece.color)
  {
    OffsetMember(p, OpenSquares(b, EnemyColor(piece.color)), KnightDirs, q);
    KnightJumpOffsets(p, q);
    if InBound(q) {
      CellCases(b, q, piece.color);
    }
  }

  /** The knight's eight offsets are exactly the (1, 2) and (2, 1) jumps. */
  lemma KnightJumpOffsets(p: Square, q: Square)
    ensures KnightJump(p, q) <==> exists k :: 0 <= k < |KnightDirs| && q == (p.0 + KnightDirs[k].0, p.1 + KnightDirs[k].1)
  {
    if KnightJump(p, q) {
      var d := (q.0 - p.0, q.1 - p.1);
      assert d in KnightDirs;
      var k :| 0 <= k < 8 && KnightDirs[k] == d;
      assert q == (p.0 + KnightDirs[k].0, p.1 + KnightDirs[k].1);
    }
  }

  /**
   * The king marks exactly the neighbouring squares that are on the board and
   * not held by its own colour.
   */
  lemma KingExact(b: BoardState, p: Square, piece: Piece, q: Square)
    ensures q in KingMoves(b, p, piece) <==>
      q != p && -1 <= q.0 - p.0 <= 1 && -1 <= q.1 - p.1 <= 1 && InBound(q) && !IsColorOn(b, q, piece.color)
  {
    if InBound(q) {
      CellCases(b, q, piece.color);
    }
  }

  /**
   * A pawn marks: the square ahead (rank direction -1 for White, +1 for Black)
   * iff it is on the board and empty; the square two ahead iff the pawn has
   * not moved and both squares are on the board and empty; a diagonal square
   * ahead iff an enemy piece stands on it; and nothing else.
   */
  lemma PawnExact(b: BoardState, p: Square, piece: Piece, q: Square)
    requires InBound(p)
    ensures
      var dir := Forward(piece.color);
      && (q == (p.0, p.1 + dir) ==>
            (q in PawnMoves(b, p, piece) <==> InBound(q) && IsEmptyOn(b, q)))
      && (q == (p.0, p.1 + 2 * dir) ==>
            (q in PawnMoves(b, p, piece) <==>
               !piece.hasMoved && InBound(q) && IsEmptyOn(b, (p.0, p.1 + dir)) && IsEmptyOn(b, q)))
      && ((q == (p.0 - 1, p.1 + dir) || q == (p.0 + 1, p.1 + dir)) ==>
            (q in PawnMoves(b, p, piece) <==> InBound(q) && IsColorOn(b, q, EnemyColor(piece.color))))
      && (q in PawnMoves(b, p, piece) ==>
            q == (p.0, p.1 + dir) || q == (p.0, p.1 + 2 * dir) ||
            q == (p.0 - 1, p.1 + dir) || q == (p.0 + 1, p.1 + dir))
  {
  }

  /**
   * Every square the generator marks is on the board, is not the origin, and
   * is never held by a piece of the mover's colour; an empty square marks nothing.
   */
  lemma PseudoMovesSound(b: BoardState, p: Square, q: Square)
    requires InBound(p) && q in PseudoMoves(b, p)
    ensures GetPiece(b, p).Some?
    ensures InBound(q) && q != p && !IsColorOn(b, q, GetPiece(b, p).value.color)
  {
    var piece := GetPiece(b, p).value;
    var enemy := EnemyColor(piece.color);
    match piece.pieceType
    case Pawn(_) =>
      PawnExact(b, p, piece, q);
      if InBound(q) {
        CellCases(b, q, piece.color);
      }
    case Knight =>
      KnightExact(b, p, piece, q);
    case King =>
      KingExact(b, p, piece, q);
    case Bishop =>
      DiagonalExact(b, p, enemy, q);
      var d :| IsDirection(d) && d.0 != 0 && d.1 != 0 && q in RayFrom(b, p, d, enemy);
      RaySound(b, p, d, enemy, q);
    case Rook =>
      OrthogonalExact(b, p, enemy, q);
      var d :| IsDirection(d) && (d.0 == 0 || d.1 == 0) && q in RayFrom(b, p, d, enemy);
      RaySound(b, p, d, enemy, q);
    case Queen =>
      QueenExact(b, p, q);
      var d :| IsDirection(d) && q in RayFrom(b, p, d, enemy);
      RaySound(b, p, d, enemy, q);
  }

  /** A square is in the union of the first n sets iff it is in one of them. */
  lemma {:induction false} UnionPrefixMember(sets: seq<set<Square>>, n: int, q: Square)
    requires 0 <= n <= |sets|
    ensures q in UnionPrefix(sets, n) <==> exists i :: 0 <= i < n && q in sets[i]
    decreases n
  {
    if n > 0 {
      UnionPrefixMember(sets, n - 1, q);
      if q in sets[n - 1] {
        assert exists i :: 0 <= i < n && q in sets[i];
      }
    }
  }

  /** The attack union of the first n flat indices, member by member. */
  lemma AttacksBelowMember(b: BoardState, c: Color, n: int, q: Square)
    requires 0 <= n <= BoardSize
    ensures q in AttacksBelow(b, c, n) <==>
      exists i :: 0 <= i < n && IsColorOn(b, ToIndex2D(i), c) && q in PseudoMoves(b, ToIndex2D(i))
  {
    var sets := PieceAttacks(b, c);
    UnionPrefixMember(sets, n, q);
    if exists i :: 0 <= i < n && q in sets[i] {
      var i :| 0 <= i < n && q in sets[i];
      assert IsColorOn(b, ToIndex2D(i), c) && q in PseudoMoves(b, ToIndex2D(i));
    }
    if exists i :: 0 <= i < n && IsColorOn(b, ToIndex2D(i), c) && q in PseudoMoves(b, ToIndex2D(i)) {
      var i :| 0 <= i < n && IsColorOn(b, ToIndex2D(i), c) && q in PseudoMoves(b, ToIndex2D(i));
      assert q in sets[i];
    }
  }

  /**
   * A square is attacked by colour c iff some piece of colour c has it among
   * its pseudo-legal moves.
   */
  lemma AttacksMember(b: BoardState, c: Color, q: Square)
    ensures q in Attacks(b, c) <==>
      exists s :: InBound(s) && IsColorOn(b, s, c) && q in PseudoMoves(b, s)
  {
    AttacksBelowMember(b, c, BoardSize, q);
    if exists s :: InBound(s) && IsColorOn(b, s, c) && q in PseudoMoves(b, s) {
      var s :| InBound(s) && IsColorOn(b, s, c) && q in PseudoMoves(b, s);
      IndexRoundTrip(s, 0);
      assert ToIndex2D(ToIndex1D(s)) == s;
    }
    if q in Attacks(b, c) {
      var i :| 0 <= i < BoardSize && IsColorOn(b, ToIndex2D(i), c) && q in PseudoMoves(b, ToIndex2D(i));
      IndexRoundTrip((0, 0), i);
    }
  }

  // ---------------------------------------------------------------------
  // The generator as it runs: marking a table in place
  // ---------------------------------------------------------------------

  /** Marks square q in the table: the table gains exactly q. */
  method Mark(moves: array<bool>, q: Square)
    requires moves.Length == BoardSize && InBound(q)
    modifies moves
    ensures Accumulated(old(moves[..]), moves[..], {q})
  {
    ghost var before := moves[..];
    moves[ToIndex1D(q)] := true;
    MarkOne(before, q);
  }

  /** Marks the moves of the piece on pos in moves; an empty square leaves the table as it was. */
  method GetMoves(b: BoardState, pos: Square, moves: array<bool>)
    requires InBound(pos) && moves.Length == BoardSize
    modifies moves
    ensures Accumulated(old(moves[..]), moves[..], PseudoMoves(b, pos))
  {
    var cell := GetPiece(b, pos);
    if cell.None? {
      return;
    }
    var piece := cell.value;
    match piece.pieceType
    case Pawn(_) => GetPawnMoves(piece, pos, b, moves);
    case Knight => GetKnightMoves(piece, pos, b, moves);
    case Bishop => GetBishopMoves(piece, pos, b, moves);
    case Rook => GetRookMoves(piece, pos, b, moves);
    case Queen => GetQueenMoves(piece, pos, b, moves);
    case King => GetKingMoves(piece, pos, b, moves);
  }

  /** The body of the pawn's capture loop: marks the square ahead on file offset moveX when an enemy stands there. */
  method TryPawnCapture(b: BoardState, pos: Square, moveX: int, yDirection: int, enemyColor: Color, moves: array<bool>)
    requires moves.Length == BoardSize
    modifies moves
    ensures Accumulated(old(moves[..]), moves[..], PawnAttack(b, pos, moveX, yDirection, enemyColor))
  {
    var q := (pos.0 + moveX, pos.1 + yDirection);
    if InBound(q) && IsColorOn(b, q, enemyColor) {
      Mark(moves, q);
    } else {
      AccumulatedNone(moves[..]);
    }
  }

  method GetPawnMoves(piece: Piece, pos: Square, b: BoardState, moves: array<bool>)
    requires InBound(pos) && moves.Length == BoardSize
    modifies moves
    ensures Accumulated(old(moves[..]), moves[..], PawnMoves(b, pos, piece))
  {
    var x, y := pos.0, pos.1;
    var yDirection := if piece.color == White then -1 else 1;
    var reach := if piece.hasMoved then 1 else 2;
    var enemyColor := if piece.color == White then Black else White;
    assert yDirection == Forward(piece.color) && enemyColor == EnemyColor(piece.color);
    ghost var one := (x, y + yDirection);
    ghost var two := (x, y + 2 * yDirection);

    // the forward advance stops at the first square that is off the board or occupied
    var moveY := 1;
    while moveY <= reach
      invariant 1 <= moveY <= reach + 1
      invariant moves.Length == BoardSize
      invariant moveY > 1 ==> InBound(one) && IsEmptyOn(b, one)
      invariant moveY > 2 ==> InBound(two) && IsEmptyOn(b, two) && !piece.hasMoved
      invariant Accumulated(old(moves[..]), moves[..],
                            if moveY == 1 then {} else if moveY == 2 then {one} else {one, two})
    {
      var q := (x, y + moveY * yDirection);
      assert q == if moveY == 1 then one else two;
      if InBound(q) && IsEmptyOn(b, q) {
        ghost var before := moves[..];
        Mark(moves, q);
        AccumulatedTrans(old(moves[..]), before, moves[..], if moveY == 1 then {} else {one}, {q});
      } else {
        break;
      }
      moveY := moveY + 1;
    }
    assert Accumulated(old(moves[..]), moves[..], PawnAdvance(b, pos, piece));

    // the diagonal squares ahead, only when an enemy stands there
    ghost var mid := moves[..];
    for i := 0 to 2
      invariant Accumulated(mid, moves[..],
                            if i == 0 then {}
                            else if i == 1 then PawnAttack(b, pos, -1, yDirection, enemyColor)
                            else PawnAttack(b, pos, -1, yDirection, enemyColor) + PawnAttack(b, pos, 1, yDirection, enemyColor))
    {
      var moveX := if i == 0 then -1 else 1;
      ghost var before := moves[..];
      TryPawnCapture(b, pos, moveX, yDirection, enemyColor, moves);
      AccumulatedTrans(mid, before, moves[..],
                       if i == 0 then {} else PawnAttack(b, pos, -1, yDirection, enemyColor),
                       PawnAttack(b, pos, moveX, yDirection, enemyColor));
      assert i == 0 ==> {} + PawnAttack(b, pos, moveX, yDirection, enemyColor) == PawnAttack(b, pos, -1, yDirection, enemyColor);
    }
    AccumulatedTrans(old(moves[..]), mid, moves[..], PawnAdvance(b, pos, piece),
                     PawnAttack(b, pos, -1, yDirection, enemyColor) + PawnAttack(b, pos, 1, yDirection, enemyColor));
  }

  method GetKnightMoves(piece: Piece, pos: Square, b: BoardState, moves: array<bool>)
    requires InBound(pos) && moves.Length == BoardSize
    modifies moves
    ensures Accumulated(old(moves[..]), moves[..], KnightMoves(b, pos, piece))
  {
    var x, y := pos.0, pos.1;
    var enemyColor := if piece.color == White then Black else White;
    assert enemyColor == EnemyColor(piece.color);
    for k := 0 to |KnightDirs|
      invariant Accumulated(old(moves[..]), moves[..], OffsetMoves(pos, OpenSquares(b, enemyColor), KnightDirs[..k]))
    {
      var moveX, moveY := KnightDirs[k].0, KnightDirs[k].1;
      ghost var before := moves[..];
      MarkIfOpen(b, (x + moveX, y + moveY), enemyColor, moves);
      OffsetMovesNext(pos, OpenSquares(b, enemyColor), KnightDirs, k, (x + moveX, y + moveY));
      AccumulatedTrans(old(moves[..]), before, moves[..], OffsetMoves(pos, OpenSquares(b, enemyColor), KnightDirs[..k]),
                       StepOn(OpenSquares(b, enemyColor), (x + moveX, y + moveY)));
    }
    assert KnightDirs[..|KnightDirs|] == KnightDirs;
  }

  method GetBishopMoves(piece: Piece, pos: Square, b: BoardState, moves: array<bool>)
    requires InBound(pos) && moves.Length == BoardSize
    modifies moves
    ensures Accumulated(old(moves[..]), moves[..], DiagonalMoves(b, pos, EnemyColor(piece.color)))
  {
    GetDiagonalMoves(piece, pos, b, moves);
  }

  method GetRookMoves(piece: Piece, pos: Square, b: BoardState, moves: array<bool>)
    requires InBound(pos) && moves.Length == BoardSize
    modifies moves
    ensures Accumulated(old(moves[..]), moves[..], OrthogonalMoves(b, pos, EnemyColor(piece.color)))
  {
    GetOrthogonalMoves(piece, pos, b, moves);
  }

  method GetQueenMoves(piece: Piece, pos: Square, b: BoardState, moves: array<bool>)
    requires InBound(pos) && moves.Length == BoardSize
    modifies moves
    ensures Accumulated(old(moves[..]), moves[..],
                        DiagonalMoves(b, pos, EnemyColor(piece.color)) + OrthogonalMoves(b, pos, EnemyColor(piece.color)))
  {
    ghost var before := moves[..];
    GetDiagonalMoves(piece, pos, b, moves);
    ghost var mid := moves[..];
    GetOrthogonalMoves(piece, pos, b, moves);
    AccumulatedTrans(before, mid, moves[..], DiagonalMoves(b, pos, EnemyColor(piece.color)),
                     OrthogonalMoves(b, pos, EnemyColor(piece.color)));
  }

  /** Marks square q when it is on the board and empty or enemy-held. */
  method MarkIfOpen(b: BoardState, q: Square, enemyColor: Color, moves: array<bool>)
    requires moves.Length == BoardSize
    modifies moves
    ensures Accumulated(old(moves[..]), moves[..], StepOn(OpenSquares(b, enemyColor), q))
  {
    if InBound(q) && (IsEmptyOn(b, q) || IsColorOn(b, q, enemyColor)) {
      Mark(moves, q);
    } else {
      AccumulatedNone(moves[..]);
    }
  }

  /** One offset of the king's inner loop other than (0, 0). */
  method TryKingSquare(b: BoardState, pos: Square, moveX: int, moveY: int, enemyColor: Color, moves: array<bool>)
    requires (moveX, moveY) != (0, 0) && moves.Length == BoardSize
    modifies moves
    ensures Accumulated(old(moves[..]), moves[..], KingStep(pos, OpenSquares(b, enemyColor), moveX, moveY))
  {
    MarkIfOpen(b, (pos.0 + moveX, pos.1 + moveY), enemyColor, moves);
  }

  method GetKingMoves(piece: Piece, pos: Square, b: BoardState, moves: array<bool>)
    requires InBound(pos) && moves.Length == BoardSize
    modifies moves
    ensures Accumulated(old(moves[..]), moves[..], KingMoves(b, pos, piece))
  {
    var enemyColor := if piece.color == White then Black else White;
    assert enemyColor == EnemyColor(piece.color);
    KingColumnsStart(pos, OpenSquares(b, enemyColor));
    AccumulatedNone(moves[..]);
    for moveX := -1 to 2
      invariant Accumulated(old(moves[..]), moves[..], KingColumns(pos, OpenSquares(b, enemyColor), moveX))
    {
      ghost var done := KingColumns(pos, OpenSquares(b, enemyColor), moveX);
      KingColumnStart(pos, OpenSquares(b, enemyColor), moveX, done);
      for moveY := -1 to 2
        invariant Accumulated(old(moves[..]), moves[..], done + KingColumn(pos, OpenSquares(b, enemyColor), moveX, moveY))
      {
        KingColumnNext(pos, OpenSquares(b, enemyColor), moveX, moveY);
        if (moveX, moveY) == (0, 0) {
          continue;
        }
        ghost var before := moves[..];
        TryKingSquare(b, pos, moveX, moveY, enemyColor, moves);
        AccumulatedTrans(old(moves[..]), before, moves[..], done + KingColumn(pos, OpenSquares(b, enemyColor), moveX, moveY),
                         KingStep(pos, OpenSquares(b, enemyColor), moveX, moveY));
        AccumulatedAssoc(old(moves[..]), moves[..], done, KingColumn(pos, OpenSquares(b, enemyColor), moveX, moveY),
                         KingStep(pos, OpenSquares(b, enemyColor), moveX, moveY));
      }
      KingColumnsNext(pos, OpenSquares(b, enemyColor), moveX);
    }
  }

  /** The body of the ray loop at square q: marks q when it is empty or enemy-held, and says whether it is empty. */
  method VisitRaySquare(b: BoardState, q: Square, enemyColor: Color, moves: array<bool>) returns (isEmpty: bool)
    requires InBound(q) && moves.Length == BoardSize
    modifies moves
    ensures isEmpty == IsEmptyOn(b, q)
    ensures isEmpty ==> Accumulated(old(moves[..]), moves[..], {q})
    ensures !isEmpty ==> Accumulated(old(moves[..]), moves[..], if IsColorOn(b, q, enemyColor) then {q} else {})
  {
    isEmpty := IsEmptyOn(b, q);
    var isEnemy := IsColorOn(b, q, enemyColor);
    if isEmpty || isEnemy {
      Mark(moves, q);
    } else {
      AccumulatedNone(moves[..]);
    }
  }

  /** Casts one ray from pos in direction dir, marking as RayFrom says. */
  method GetMovesInDirection(enemyColor: Color, pos: Square, dir: Square, b: BoardState, moves: array<bool>)
    requires InBound(pos) && IsDirection(dir) && moves.Length == BoardSize
    modifies moves
    ensures Accumulated(old(moves[..]), moves[..], RayFrom(b, pos, dir, enemyColor))
  {
    var xDir, yDir := dir.0, dir.1;
    var nx, ny := pos.0, pos.1;
    ghost var done: set<Square> := {};
    while true
      invariant InBound((nx, ny))
      invariant Accumulated(old(moves[..]), moves[..], done)
      invariant RaySplit(b, enemyColor, done, (nx + dir.0, ny + dir.1), dir, RayFrom(b, pos, dir, enemyColor))
      decreases RayMeasure(nx + xDir, xDir) + RayMeasure(ny + yDir, yDir)
    {
      nx := nx + xDir;
      ny := ny + yDir;

      RayAdvance(b, enemyColor, done, nx, ny, dir, RayFrom(b, pos, dir, enemyColor));
      if !InBound((nx, ny)) {
        break;
      }

      ghost var before := moves[..];
      var isEmpty := VisitRaySquare(b, (nx, ny), enemyColor, moves);

      if !isEmpty {
        AccumulatedTrans(old(moves[..]), before, moves[..], done,
                         if IsColorOn(b, (nx, ny), enemyColor) then {(nx, ny)} else {});
        break;
      }
      AccumulatedTrans(old(moves[..]), before, moves[..], done, {(nx, ny)});
      done := done + {(nx, ny)};
    }
  }

  method GetOrthogonalMoves(piece: Piece, pos: Square, b: BoardState, moves: array<bool>)
    requires InBound(pos) && moves.Length == BoardSize
    modifies moves
    ensures Accumulated(old(moves[..]), moves[..], OrthogonalMoves(b, pos, EnemyColor(piece.color)))
  {
    var enemyColor := if piece.color == White then Black else White;
    assert enemyColor == EnemyColor(piece.color);
    for k := 0 to |OrthogonalDirs|
      invariant Accumulated(old(moves[..]), moves[..], RaysFrom(b, pos, enemyColor, OrthogonalDirs[..k]))
    {
      ghost var before := moves[..];
      GetMovesInDirection(enemyColor, pos, OrthogonalDirs[k], b, moves);
      assert OrthogonalDirs[..k + 1][..k] == OrthogonalDirs[..k];
      AccumulatedTrans(old(moves[..]), before, moves[..], RaysFrom(b, pos, enemyColor, OrthogonalDirs[..k]),
                       RayFrom(b, pos, OrthogonalDirs[k], enemyColor));
    }
    assert OrthogonalDirs[..|OrthogonalDirs|] == OrthogonalDirs;
  }

  method GetDiagonalMoves(piece: Piece, pos: Square, b: BoardState, moves: array<bool>)
    requires InBound(pos) && moves.Length == BoardSize
    modifies moves
    ensures Accumulated(old(moves[..]), moves[..], DiagonalMoves(b, pos, EnemyColor(piece.color)))
  {
    var enemyColor := if piece.color == White then Black else White;
    assert enemyColor == EnemyColor(piece.color);
    var dirs := [-1, 1];
    for i := 0 to 2
      invariant Accumulated(old(moves[..]), moves[..], RaysFrom(b, pos, enemyColor, DiagonalDirs[..2 * i]))
    {
      for j := 0 to 2
        invariant Accumulated(old(moves[..]), moves[..], RaysFrom(b, pos, enemyColor, DiagonalDirs[..2 * i + j]))
      {
        var xDir, yDir := dirs[i], dirs[j];
        assert (xDir, yDir) == DiagonalDirs[2 * i + j];
        ghost var before := moves[..];
        GetMovesInDirection(enemyColor, pos, (xDir, yDir), b, moves);
        assert DiagonalDirs[..2 * i + j + 1][..2 * i + j] == DiagonalDirs[..2 * i + j];
        AccumulatedTrans(old(moves[..]), before, moves[..], RaysFrom(b, pos, enemyColor, DiagonalDirs[..2 * i + j]),
                         RayFrom(b, pos, (xDir, yDir), enemyColor));
      }
    }
    assert DiagonalDirs[..4] == DiagonalDirs;
  }

  /**
   * The union of the moves of every piece of colour color, as a fresh table:
   * entry i is set iff square ToIndex2D(i) is attacked.
   */
  method GetAllAttacks(b: BoardState, color: Color) returns (attacks: array<bool>)
    ensures fresh(attacks) && attacks.Length == BoardSize
    ensures forall i :: 0 <= i < BoardSize ==> attacks[i] == (ToIndex2D(i) in Attacks(b, color))
  {
    attacks := new bool[BoardSize](_ => false);
    for pos1D := 0 to BoardSize
      invariant Accumulated(NoMoves(), attacks[..], AttacksBelow(b, color, pos1D))
    {
      var pos := ToIndex2D(pos1D);
      ghost var before := attacks[..];
      var cell := b[pos1D];
      if cell.None? || cell.value.color != color {
        assert !IsColorOn(b, pos, color);
        continue;
      }
      GetMoves(b, pos, attacks);
      AccumulatedTrans(NoMoves(), before, attacks[..], AttacksBelow(b, color, pos1D), PseudoMoves(b, pos));
    }
  }
}
