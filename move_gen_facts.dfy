/**
 * What the generators of `utils/pieces.py` produce, stated without their
 * loops: which squares each kind of piece reaches from an on-board square.
 */
module MoveGenFacts {
  import opened Wrappers
  import opened SquareCodec
  import opened PieceModel
  import opened MoveGen

  // ---------------------------------------------------------------- geometry

  /** `t` lies on the ray from (row, col) in direction `d`. */
  predicate OnRay(row: int, col: int, d: (int, int), t: Square)
  {
    t != (row, col) && Aligned(row, col, t) && DirectionTo(row, col, t) == d
  }

  /** The square `k >= 1` steps along `d` lies on that ray, `k` king steps away. */
  lemma StepOnRay(row: int, col: int, d: (int, int), k: int)
    requires IsStep(d) && 1 <= k
    ensures OnRay(row, col, d, Step(row, col, d, k))
    ensures Distance(row, col, Step(row, col, d, k)) == k
  {
  }

  /** A square on a ray is the step along it numbered by its distance. */
  lemma OnRayIsStep(row: int, col: int, d: (int, int), t: Square)
    requires OnRay(row, col, d, t)
    ensures IsStep(d) && 1 <= Distance(row, col, t)
    ensures t == Step(row, col, d, Distance(row, col, t))
  {
  }

  /** Between two on-board squares of a ray, every square is on the board. */
  lemma StepBetween(row: int, col: int, d: (int, int), j: int, k: int)
    requires IsStep(d) && OnBoard(row, col) && 0 <= j <= k
    requires OnBoard(Along(row, d.0, k), Along(col, d.1, k))
    ensures OnBoard(Along(row, d.0, j), Along(col, d.1, j))
  {
  }

  // ---------------------------------------------------------------- rays

  /**
   * The mover reaches `t` along `d` from step `i` on (and before step
   * `limit`): `t` is on that ray, at least `i` steps away, on the board, not
   * held by the mover's color, and every square from step `i` up to it is
   * empty.
   */
  predicate ReachesFrom(g: Grid, row: int, col: int, color: Color, d: (int, int), i: int, limit: int, t: Square)
    requires IsGrid(g) && OnBoard(row, col) && 0 <= i
  {
    OnRay(row, col, d, t) && i <= Distance(row, col, t) < limit && OnBoard(t.0, t.1) &&
    CanLand(g, color, t) &&
    (OnRayIsStep(row, col, d, t);
     ClearBetween(g, row, col, d, i, Distance(row, col, t)))
  }

  /**
   * Reaching `t` from step `i` on: either `t` is the square at step `i` and
   * can be landed on, or that square is empty and `t` is reached from step
   * `i + 1` on.
   */
  lemma ReachesFromStep(g: Grid, row: int, col: int, color: Color, d: (int, int), i: int, limit: int, t: Square)
    requires IsGrid(g) && IsStep(d) && OnBoard(row, col) && 1 <= i < limit <= 8
    ensures var s := Step(row, col, d, i);
      ReachesFrom(g, row, col, color, d, i, limit, t) <==>
        OnBoard(s.0, s.1) &&
        ((t == s && CanLand(g, color, s)) || (g[s.0][s.1].None? && ReachesFrom(g, row, col, color, d, i + 1, limit, t)))
  {
    StepOnRay(row, col, d, i);
    if OnRay(row, col, d, t) {
      OnRayIsStep(row, col, d, t);
      if i <= Distance(row, col, t) && OnBoard(t.0, t.1) {
        StepBetween(row, col, d, i, Distance(row, col, t));
      }
    }
  }

  /** The squares of `Ray(.., i, limit)` are exactly those the mover reaches along `d` from step `i`. */
  lemma {:induction false} RayFromMember(g: Grid, row: int, col: int, color: Color, d: (int, int), i: int, limit: int, t: Square)
    requires IsGrid(g) && IsStep(d) && OnBoard(row, col) && 1 <= i <= limit <= 8
    ensures t in Ray(g, row, col, color, d, i, limit) <==> ReachesFrom(g, row, col, color, d, i, limit, t)
    decreases limit - i
  {
    if i < limit {
      var s := Step(row, col, d, i);
      ReachesFromStep(g, row, col, color, d, i, limit, t);
      if OnBoard(s.0, s.1) && g[s.0][s.1].None? {
        RayFromMember(g, row, col, color, d, i + 1, limit, t);
      }
    }
  }

  /** The mover reaches `t` in a straight line, in fewer than `limit` steps. */
  predicate Reaches(g: Grid, row: int, col: int, color: Color, limit: int, t: Square)
    requires IsGrid(g) && OnBoard(row, col)
  {
    ReachesFrom(g, row, col, color, DirectionTo(row, col, t), 1, limit, t)
  }

  /** Reaching `t` along `d` is reaching it in a straight line, `d` being the direction towards it. */
  lemma ReachesAlong(g: Grid, row: int, col: int, color: Color, d: (int, int), limit: int, t: Square)
    requires IsGrid(g) && OnBoard(row, col)
    ensures ReachesFrom(g, row, col, color, d, 1, limit, t) <==>
      DirectionTo(row, col, t) == d && Reaches(g, row, col, color, limit, t)
  {
  }

  /** The rays along the first `n` directions hold exactly the squares reached along one of them. */
  lemma {:induction false} RaysUpToMember(g: Grid, row: int, col: int, color: Color, dirs: seq<(int, int)>, n: int, limit: int, t: Square)
    requires IsGrid(g) && AllSteps(dirs) && OnBoard(row, col) && 0 <= n <= |dirs| && 1 <= limit <= 8
    ensures t in RaysUpTo(g, row, col, color, dirs, n, limit) <==>
      DirectionTo(row, col, t) in dirs[..n] && Reaches(g, row, col, color, limit, t)
  {
    if n > 0 {
      RaysUpToMember(g, row, col, color, dirs, n - 1, limit, t);
      RayFromMember(g, row, col, color, dirs[n - 1], 1, limit, t);
      ReachesAlong(g, row, col, color, dirs[n - 1], limit, t);
      assert dirs[..n] == dirs[..n - 1] + [dirs[n - 1]];
    }
  }

  /** A sliding piece reaches exactly the squares along one of its directions, up to and including the first piece of the other color. */
  lemma RaysMember(g: Grid, row: int, col: int, color: Color, dirs: seq<(int, int)>, limit: int, t: Square)
    requires IsGrid(g) && AllSteps(dirs) && OnBoard(row, col) && 1 <= limit <= 8
    ensures t in Rays(g, row, col, color, dirs, limit) <==>
      DirectionTo(row, col, t) in dirs && Reaches(g, row, col, color, limit, t)
  {
    RaysUpToMember(g, row, col, color, dirs, |dirs|, limit, t);
    assert dirs[..|dirs|] == dirs;
  }

  // ---------------------------------------------------------------- per kind

  /** A rook reaches exactly the squares on its row or column with nothing in between. */
  lemma RookTargets(g: Grid, row: int, col: int, color: Color, t: Square)
    requires IsGrid(g) && OnBoard(row, col)
    ensures t in Targets(g, Piece(Rook, color), row, col) <==>
      Reaches(g, row, col, color, 8, t) && (t.0 == row || t.1 == col)
  {
    RaysMember(g, row, col, color, RookDirections, 8, t);
  }

  /** A bishop reaches exactly the squares on its diagonals with nothing in between. */
  lemma BishopTargets(g: Grid, row: int, col: int, color: Color, t: Square)
    requires IsGrid(g) && OnBoard(row, col)
    ensures t in Targets(g, Piece(Bishop, color), row, col) <==>
      Reaches(g, row, col, color, 8, t) && t.0 != row && t.1 != col
  {
    RaysMember(g, row, col, color, BishopDirections, 8, t);
  }

  /** A queen reaches exactly the squares a rook or a bishop on its square would. */
  lemma QueenTargets(g: Grid, row: int, col: int, color: Color, t: Square)
    requires IsGrid(g) && OnBoard(row, col)
    ensures t in Targets(g, Piece(Queen, color), row, col) <==> Reaches(g, row, col, color, 8, t)
  {
    RaysMember(g, row, col, color, RookDirections, 8, t);
    RaysMember(g, row, col, color, BishopDirections, 8, t);
  }

  /** A king reaches exactly the on-board squares one king step away that it may land on. */
  lemma KingTargets(g: Grid, row: int, col: int, color: Color, t: Square)
    requires IsGrid(g) && OnBoard(row, col)
    ensures t in Targets(g, Piece(King, color), row, col) <==>
      OnBoard(t.0, t.1) && Distance(row, col, t) == 1 && CanLand(g, color, t)
  {
    RaysMember(g, row, col, color, RookDirections, 2, t);
    RaysMember(g, row, col, color, BishopDirections, 2, t);
  }

  /** The jumps along the first `n` offsets hold exactly the landable on-board squares one of those offsets away. */
  lemma {:induction false} JumpsUpToMember(g: Grid, row: int, col: int, color: Color, offsets: seq<(int, int)>, n: int, t: Square)
    requires IsGrid(g) && NoneStill(offsets) && 0 <= n <= |offsets|
    ensures t in JumpsUpTo(g, row, col, color, offsets, n) <==>
      OnBoard(t.0, t.1) && CanLand(g, color, t) && (t.0 - row, t.1 - col) in offsets[..n]
  {
    if n > 0 {
      var o := offsets[n - 1];
      var s := (row + o.0, col + o.1);
      var rest := JumpsUpTo(g, row, col, color, offsets, n - 1);
      JumpsUpToMember(g, row, col, color, offsets, n - 1, t);
      assert offsets[..n] == offsets[..n - 1] + [o];
      assert (t.0 - row, t.1 - col) in offsets[..n] <==> (t.0 - row, t.1 - col) in offsets[..n - 1] || t == s;
      if OnBoard(s.0, s.1) && CanLand(g, color, s) {
        assert t in rest + [s] <==> t in rest || t == s;
      }
    }
  }

  /** The knight's eight offsets are exactly the (2, 1) and (1, 2) shapes in every orientation. */
  lemma KnightOffsetShape(dr: int, dc: int)
    ensures (dr, dc) in KnightOffsets <==>
      (Abs(dr) == 2 && Abs(dc) == 1) || (Abs(dr) == 1 && Abs(dc) == 2)
  {
  }

  /**
   * A knight reaches exactly the on-board squares two rows and one column,
   * or one row and two columns, away that it may land on, whatever stands
   * in between.
   */
  lemma KnightTargets(g: Grid, row: int, col: int, color: Color, t: Square)
    requires IsGrid(g) && OnBoard(row, col)
    ensures t in Targets(g, Piece(Knight, color), row, col) <==>
      OnBoard(t.0, t.1) && CanLand(g, color, t) &&
      ((Abs(t.0 - row) == 2 && Abs(t.1 - col) == 1) || (Abs(t.0 - row) == 1 && Abs(t.1 - col) == 2))
  {
    KnightOffsetShape(t.0 - row, t.1 - col);
    assert NoneStill(KnightOffsets);
    JumpsUpToMember(g, row, col, color, KnightOffsets, |KnightOffsets|, t);
    assert KnightOffsets[..|KnightOffsets|] == KnightOffsets;
  }

  /**
   * A pawn reaches the empty square ahead; a square diagonally ahead
   * holding the other color; and, from its starting row, the square two
   * ahead if that one is empty, whatever stands on the square between.
   */
  lemma PawnTargetsMember(g: Grid, row: int, col: int, color: Color, t: Square)
    requires IsGrid(g) && OnBoard(row, col) && CanGenerate(Piece(Pawn, color), row)
    ensures t in Targets(g, Piece(Pawn, color), row, col) <==>
      OnBoard(t.0, t.1) &&
      ((t == (row + Direction(color), col) && g[t.0][t.1].None?) ||
       (t.0 == row + Direction(color) && Abs(t.1 - col) == 1 &&
        g[t.0][t.1].Some? && g[t.0][t.1].value.color != color) ||
       (row == StartingRow(color) && t == (row + 2 * Direction(color), col) && g[t.0][t.1].None?))
  {
    var advance := PawnAdvance(g, row, col, color);
    var left := PawnCapture(g, row, col, color, -1);
    var right := PawnCapture(g, row, col, color, 1);
    var double := PawnDouble(g, row, col, color);
    var f := row + Direction(color);
    assert t in PawnTargets(g, row, col, color) <==> t in advance || t in left || t in right || t in double;
    assert t in advance <==> t == (f, col) && g[f][col].None?;
    assert t in left <==> 0 <= col - 1 && t == (f, col - 1) && g[f][col - 1].Some? && g[f][col - 1].value.color != color;
    assert t in right <==> col + 1 <= 7 && t == (f, col + 1) && g[f][col + 1].Some? && g[f][col + 1].value.color != color;
  }
}
