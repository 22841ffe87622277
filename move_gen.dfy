/**
 * Move generation of `utils/pieces.py`: the geometric ("pseudo-legal")
 * destinations of each kind of piece, ignoring check.
 *
 * The source's piece objects carry their own row, column and a reference
 * to the grid; here the generator is given the grid, the piece and its
 * square. The specification functions list destination squares in the
 * order the source appends them; the methods run the source's loops and
 * return the destinations as square names.
 */
module MoveGen {
  import opened Wrappers
  import opened SquareCodec
  import opened PieceModel

  // ---------------------------------------------------------------- geometry

  /** `x + i * d` for a unit step `d`, without the multiplication. */
  function Along(x: int, d: int, i: int): int
    requires -1 <= d <= 1
  {
    if d == 0 then x else if d > 0 then x + i else x - i
  }

  /** The square `i` steps along `d` is the source's `(row + i * d[0], col + i * d[1])`. */
  lemma StepIsProduct(row: int, col: int, d: (int, int), i: int)
    requires IsStep(d)
    ensures Step(row, col, d, i) == (row + i * d.0, col + i * d.1)
  {
  }

  /** One of the eight unit directions. */
  predicate IsStep(d: (int, int))
  {
    -1 <= d.0 <= 1 && -1 <= d.1 <= 1 && d != (0, 0)
  }

  /** The square `k` steps from (row, col) in direction `d`. */
  function Step(row: int, col: int, d: (int, int), k: int): Square
    requires IsStep(d)
  {
    (Along(row, d.0, k), Along(col, d.1, k))
  }

  function Abs(x: int): nat
  {
    if x < 0 then -x else x
  }

  function Sign(x: int): int
  {
    if x == 0 then 0 else if x > 0 then 1 else -1
  }

  /** Same row, same column or same diagonal. */
  predicate Aligned(row: int, col: int, t: Square)
  {
    t.0 == row || t.1 == col || Abs(t.0 - row) == Abs(t.1 - col)
  }

  /** The unit direction from (row, col) towards `t`. */
  function DirectionTo(row: int, col: int, t: Square): (int, int)
  {
    (Sign(t.0 - row), Sign(t.1 - col))
  }

  /** The number of king steps from (row, col) to `t`. */
  function Distance(row: int, col: int, t: Square): nat
  {
    if Abs(t.0 - row) < Abs(t.1 - col) then Abs(t.1 - col) else Abs(t.0 - row)
  }

  /** The squares `i`, ..., `k - 1` steps from (row, col) along `d` are empty. */
  predicate ClearBetween(g: Grid, row: int, col: int, d: (int, int), i: int, k: int)
    requires IsGrid(g) && IsStep(d) && OnBoard(row, col) && 0 <= i
    requires OnBoard(Along(row, d.0, k), Along(col, d.1, k))
  {
    forall j :: i <= j < k ==> g[Along(row, d.0, j)][Along(col, d.1, j)].None?
  }

  /** A square the mover may land on: empty, or held by the other color. */
  predicate CanLand(g: Grid, color: Color, t: Square)
    requires IsGrid(g) && OnBoard(t.0, t.1)
  {
    g[t.0][t.1].None? || g[t.0][t.1].value.color != color
  }

  /** Every square of `ts` lies on the board. */
  predicate AllOnBoard(ts: seq<Square>)
  {
    forall k :: 0 <= k < |ts| ==> OnBoard(ts[k].0, ts[k].1)
  }

  /** What every generator promises of its output: on-board squares, never its own, never its own color. */
  predicate AllLandable(g: Grid, color: Color, row: int, col: int, ts: seq<Square>)
    requires IsGrid(g)
  {
    AllOnBoard(ts) &&
    forall k :: 0 <= k < |ts| ==> ts[k] != (row, col) && CanLand(g, color, ts[k])
  }

  // ---------------------------------------------------------------- tables

  /** Rook directions: (-1, 0), (1, 0), (0, -1), (0, 1), in the source's order. */
  const RookDirections: seq<(int, int)> := [(-1, 0), (1, 0), (0, -1), (0, 1)]

  /** Bishop directions: (-1, 1), (-1, -1), (1, 1), (1, -1), in the source's order. */
  const BishopDirections: seq<(int, int)> := [(-1, 1), (-1, -1), (1, 1), (1, -1)]

  /** Knight offsets, in the source's order. */
  const KnightOffsets: seq<(int, int)> :=
    [(-2, -1), (-2, 1), (-1, -2), (-1, 2), (1, -2), (1, 2), (2, -1), (2, 1)]

  predicate AllSteps(dirs: seq<(int, int)>)
  {
    forall k :: 0 <= k < |dirs| ==> IsStep(dirs[k])
  }

  // ---------------------------------------------------------------- specification

  /**
   * One ray of a sliding piece, from step `i` up to but excluding step
   * `limit` (`range(i, limit)` in the source): empty squares, then the first
   * occupied square if it holds the other color; nothing past an edge or an
   * occupied square.
   */
  function Ray(g: Grid, row: int, col: int, color: Color, d: (int, int), i: int, limit: int): (ray: seq<Square>)
    requires IsGrid(g) && IsStep(d) && 1 <= i <= limit <= 8
    ensures AllLandable(g, color, row, col, ray)
    decreases limit - i
  {
    if i == limit then []
    else
      var t := Step(row, col, d, i);
      if !OnBoard(t.0, t.1) then []
      else if g[t.0][t.1].None? then [t] + Ray(g, row, col, color, d, i + 1, limit)
      else if g[t.0][t.1].value.color != color then [t]
      else []
  }

  /** The rays along the first `n` directions of `dirs`, one after another. */
  function RaysUpTo(g: Grid, row: int, col: int, color: Color, dirs: seq<(int, int)>, n: int, limit: int): (ts: seq<Square>)
    requires IsGrid(g) && AllSteps(dirs) && 0 <= n <= |dirs| && 1 <= limit <= 8
    ensures AllLandable(g, color, row, col, ts)
  {
    if n == 0 then []
    else RaysUpTo(g, row, col, color, dirs, n - 1, limit) + Ray(g, row, col, color, dirs[n - 1], 1, limit)
  }

  /** The rays along every direction of `dirs`. */
  function Rays(g: Grid, row: int, col: int, color: Color, dirs: seq<(int, int)>, limit: int): (ts: seq<Square>)
    requires IsGrid(g) && AllSteps(dirs) && 1 <= limit <= 8
    ensures AllLandable(g, color, row, col, ts)
  {
    RaysUpTo(g, row, col, color, dirs, |dirs|, limit)
  }

  /** No offset leaves the piece where it stands. */
  predicate NoneStill(offsets: seq<(int, int)>)
  {
    forall k :: 0 <= k < |offsets| ==> offsets[k] != (0, 0)
  }

  /**
   * The jumps along the first `n` of `offsets` that stay on the board and
   * do not land on the mover's own color.
   */
  function JumpsUpTo(g: Grid, row: int, col: int, color: Color, offsets: seq<(int, int)>, n: int): (ts: seq<Square>)
    requires IsGrid(g) && NoneStill(offsets) && 0 <= n <= |offsets|
    ensures AllLandable(g, color, row, col, ts)
  {
    if n == 0 then []
    else
      var rest := JumpsUpTo(g, row, col, color, offsets, n - 1);
      var t := (row + offsets[n - 1].0, col + offsets[n - 1].1);
      if OnBoard(t.0, t.1) && CanLand(g, color, t) then rest + [t] else rest
  }

  /** The jumps along every offset. */
  function Jumps(g: Grid, row: int, col: int, color: Color, offsets: seq<(int, int)>): (ts: seq<Square>)
    requires IsGrid(g) && NoneStill(offsets)
    ensures AllLandable(g, color, row, col, ts)
  {
    JumpsUpTo(g, row, col, color, offsets, |offsets|)
  }

  /** White pawns move up the rows, black pawns down. */
  function Direction(c: Color): int
  {
    if c == White then 1 else -1
  }

  function StartingRow(c: Color): int
  {
    if c == White then 1 else 6
  }

  /**
   * The pawn generator indexes the row in front of it without a bounds
   * check, so that row must exist.
   */
  predicate CanGenerate(p: Piece, row: int)
  {
    p.kind == Pawn ==> 0 <= row + Direction(p.color) < 8
  }

  /** The pawn's single step: the square ahead, if it is empty. */
  function PawnAdvance(g: Grid, row: int, col: int, color: Color): (ts: seq<Square>)
    requires IsGrid(g) && OnBoard(row, col) && CanGenerate(Piece(Pawn, color), row)
    ensures AllLandable(g, color, row, col, ts)
  {
    var f := row + Direction(color);
    if g[f][col].None? then [(f, col)] else []
  }

  /** A forward diagonal (`side` is -1 for left, 1 for right), if it holds the other color. */
  function PawnCapture(g: Grid, row: int, col: int, color: Color, side: int): (ts: seq<Square>)
    requires IsGrid(g) && OnBoard(row, col) && CanGenerate(Piece(Pawn, color), row)
    requires side == -1 || side == 1
    ensures AllLandable(g, color, row, col, ts)
  {
    var f := row + Direction(color);
    if 0 <= col + side <= 7 && g[f][col + side].Some? && g[f][col + side].value.color != color
    then [(f, col + side)] else []
  }

  /**
   * The double step from the starting row, if the square two ahead is
   * empty. The square one ahead is not consulted.
   */
  function PawnDouble(g: Grid, row: int, col: int, color: Color): (ts: seq<Square>)
    requires IsGrid(g) && OnBoard(row, col) && CanGenerate(Piece(Pawn, color), row)
    ensures AllLandable(g, color, row, col, ts)
  {
    var f := row + 2 * Direction(color);
    if row == StartingRow(color) && g[f][col].None? then [(f, col)] else []
  }

  /**
   * Pawn destinations in the source's order: the single step, the left
   * capture, the right capture, the double step.
   */
  function PawnTargets(g: Grid, row: int, col: int, color: Color): (ts: seq<Square>)
    requires IsGrid(g) && OnBoard(row, col) && CanGenerate(Piece(Pawn, color), row)
    ensures AllLandable(g, color, row, col, ts)
  {
    PawnAdvance(g, row, col, color) + PawnCapture(g, row, col, color, -1)
      + PawnCapture(g, row, col, color, 1) + PawnDouble(g, row, col, color)
  }

  /** `get_legal_moves` of each kind, as squares. */
  function Targets(g: Grid, p: Piece, row: int, col: int): (ts: seq<Square>)
    requires IsGrid(g) && OnBoard(row, col) && CanGenerate(p, row)
    ensures AllLandable(g, p.color, row, col, ts)
  {
    match p.kind
    case Pawn => PawnTargets(g, row, col, p.color)
    case Knight => Jumps(g, row, col, p.color, KnightOffsets)
    case Bishop => Rays(g, row, col, p.color, BishopDirections, 8)
    case Rook => Rays(g, row, col, p.color, RookDirections, 8)
    case Queen => Rays(g, row, col, p.color, RookDirections, 8) + Rays(g, row, col, p.color, BishopDirections, 8)
    case King => Rays(g, row, col, p.color, RookDirections, 2) + Rays(g, row, col, p.color, BishopDirections, 2)
  }

  /** The names of a list of squares, in order. */
  function ToUci(ts: seq<Square>): (names: seq<string>)
    requires AllOnBoard(ts)
    ensures |names| == |ts|
  {
    if ts == [] then []
    else
      assert OnBoard(ts[0].0, ts[0].1);
      [SquareName(ts[0].0, ts[0].1)] + ToUci(ts[1..])
  }

  /** `get_legal_moves` as the source returns it: destination names. */
  function LegalMoves(g: Grid, p: Piece, row: int, col: int): seq<string>
    requires IsGrid(g) && OnBoard(row, col) && CanGenerate(p, row)
  {
    ToUci(Targets(g, p, row, col))
  }

  lemma {:induction false} ToUciAppend(a: seq<Square>, b: seq<Square>)
    requires AllOnBoard(a)
    requires AllOnBoard(b)
    ensures ToUci(a + b) == ToUci(a) + ToUci(b)
  {
    if a == [] {
      assert a + b == b;
    } else {
      assert (a + b)[1..] == a[1..] + b;
      ToUciAppend(a[1..], b);
    }
  }

  /** Appending a square to the list appends its name to the names. */
  lemma ToUciPush(names: seq<string>, ts: seq<Square>, t: Square)
    requires AllOnBoard(ts) && OnBoard(t.0, t.1) && names == ToUci(ts)
    ensures AllOnBoard(ts + [t]) && names + [SquareName(t.0, t.1)] == ToUci(ts + [t])
  {
    ToUciAppend(ts, [t]);
  }

  /** A square's name is among the names of a list of on-board squares exactly when the square is in the list. */
  lemma {:induction false} NameInToUci(ts: seq<Square>, t: Square)
    requires AllOnBoard(ts)
    requires OnBoard(t.0, t.1)
    ensures SquareName(t.0, t.1) in ToUci(ts) <==> t in ts
  {
    if ts != [] {
      SquareNameInjective(ts[0], t);
      NameInToUci(ts[1..], t);
      assert ts == [ts[0]] + ts[1..];
    }
  }

  // ---------------------------------------------------------------- the source's loops

  /**
   * One step of a ray, as names: when `moves` followed by the rest of the
   * ray from step `i` gives the whole ray, what the square (curRow, curCol),
   * `i` steps out, adds to `moves`, and whether the walk goes on.
   */
  lemma RayStep(g: Grid, row: int, col: int, color: Color, d: (int, int), i: int, limit: int, curRow: int, curCol: int,
                 moves: seq<string>, whole: seq<string>)
    requires IsGrid(g) && IsStep(d) && 1 <= i < limit <= 8
    requires (curRow, curCol) == Step(row, col, d, i)
    requires moves + ToUci(Ray(g, row, col, color, d, i, limit)) == whole
    ensures !OnBoard(curRow, curCol) ==> moves == whole
    ensures OnBoard(curRow, curCol) && g[curRow][curCol].None? ==>
      (moves + [SquareName(curRow, curCol)]) + ToUci(Ray(g, row, col, color, d, i + 1, limit)) == whole
    ensures OnBoard(curRow, curCol) && g[curRow][curCol].Some? && g[curRow][curCol].value.color != color ==>
      moves + [SquareName(curRow, curCol)] == whole
    ensures OnBoard(curRow, curCol) && g[curRow][curCol].Some? && g[curRow][curCol].value.color == color ==>
      moves == whole
  {
    var t := (curRow, curCol);
    if !OnBoard(curRow, curCol) || g[curRow][curCol].Some? {
      assert moves + [] == moves;
    } else {
      var rest := ToUci(Ray(g, row, col, color, d, i + 1, limit));
      ToUciAppend([t], Ray(g, row, col, color, d, i + 1, limit));
      assert moves + ([SquareName(curRow, curCol)] + rest) == moves + [SquareName(curRow, curCol)] + rest;
    }
  }

  /** The inner loop of the sliding pieces: walk one direction for `i` in `range(1, limit)`. */
  method RayMoves(g: Grid, row: int, col: int, color: Color, d: (int, int), limit: int) returns (moves: seq<string>)
    requires IsGrid(g) && IsStep(d) && 1 <= limit <= 8
    ensures moves == ToUci(Ray(g, row, col, color, d, 1, limit))
  {
    ghost var whole := ToUci(Ray(g, row, col, color, d, 1, limit));
    moves := [];
    for i := 1 to limit
      invariant moves + ToUci(Ray(g, row, col, color, d, i, limit)) == whole
    {
      var curRow := row + i * d.0;
      var curCol := col + i * d.1;
      StepIsProduct(row, col, d, i);
      RayStep(g, row, col, color, d, i, limit, curRow, curCol, moves, whole);
      if curRow < 0 || curRow > 7 || curCol < 0 || curCol > 7 {
        break;
      }
      var capturePiece := g[curRow][curCol];
      if capturePiece.None? {
        moves := moves + [SquareName(curRow, curCol)];
      } else {
        if capturePiece.value.color != color {
          moves := moves + [SquareName(curRow, curCol)];
        }
        break;
      }
    }
    assert ToUci(Ray(g, row, col, color, d, limit, limit)) == [];
    assert moves + [] == moves;
  }

  /** The outer loop of the sliding pieces: one ray per direction, in order. */
  method SlidingMoves(g: Grid, row: int, col: int, color: Color, dirs: seq<(int, int)>, limit: int) returns (moves: seq<string>)
    requires IsGrid(g) && AllSteps(dirs) && 1 <= limit <= 8
    ensures moves == ToUci(Rays(g, row, col, color, dirs, limit))
  {
    moves := [];
    for k := 0 to |dirs|
      invariant moves == ToUci(RaysUpTo(g, row, col, color, dirs, k, limit))
    {
      var rayMoves := RayMoves(g, row, col, color, dirs[k], limit);
      ToUciAppend(RaysUpTo(g, row, col, color, dirs, k, limit), Ray(g, row, col, color, dirs[k], 1, limit));
      moves := moves + rayMoves;
    }
  }

  /**
   * One more offset adds the name of its jump to the names so far exactly
   * when the square is on the board and is empty or holds the other color.
   */
  lemma JumpsStep(g: Grid, row: int, col: int, color: Color, offsets: seq<(int, int)>, k: int, curRow: int, curCol: int,
                  moves: seq<string>)
    requires IsGrid(g) && NoneStill(offsets) && 0 <= k < |offsets|
    requires (curRow, curCol) == (row + offsets[k].0, col + offsets[k].1)
    requires moves == ToUci(JumpsUpTo(g, row, col, color, offsets, k))
    ensures !OnBoard(curRow, curCol) ==> ToUci(JumpsUpTo(g, row, col, color, offsets, k + 1)) == moves
    ensures OnBoard(curRow, curCol) && (g[curRow][curCol].None? || g[curRow][curCol].value.color != color) ==>
      ToUci(JumpsUpTo(g, row, col, color, offsets, k + 1)) == moves + [SquareName(curRow, curCol)]
    ensures OnBoard(curRow, curCol) && g[curRow][curCol].Some? && g[curRow][curCol].value.color == color ==>
      ToUci(JumpsUpTo(g, row, col, color, offsets, k + 1)) == moves
  {
    if OnBoard(curRow, curCol) && CanLand(g, color, (curRow, curCol)) {
      ToUciPush(moves, JumpsUpTo(g, row, col, color, offsets, k), (curRow, curCol));
    }
  }

  /** The loop of `Knight.get_legal_moves` over a list of offsets: try each in order. */
  method JumpMoves(g: Grid, row: int, col: int, color: Color, offsets: seq<(int, int)>) returns (moves: seq<string>)
    requires IsGrid(g) && NoneStill(offsets)
    ensures moves == ToUci(Jumps(g, row, col, color, offsets))
  {
    moves := [];
    for k := 0 to |offsets|
      invariant moves == ToUci(JumpsUpTo(g, row, col, color, offsets, k))
    {
      var curRow := row + offsets[k].0;
      var curCol := col + offsets[k].1;
      JumpsStep(g, row, col, color, offsets, k, curRow, curCol, moves);
      if curRow >= 0 && curCol >= 0 && curRow <= 7 && curCol <= 7 {
        var capturePiece := g[curRow][curCol];
        if (capturePiece.Some? && capturePiece.value.color != color) || capturePiece.None? {
          moves := moves + [SquareName(curRow, curCol)];
        }
      }
    }
  }

  /** `Knight.get_legal_moves`: the jumps along the eight knight offsets. */
  method KnightMoves(g: Grid, row: int, col: int, color: Color) returns (moves: seq<string>)
    requires IsGrid(g)
    ensures moves == ToUci(Jumps(g, row, col, color, KnightOffsets))
  {
    assert NoneStill(KnightOffsets);
    moves := JumpMoves(g, row, col, color, KnightOffsets);
  }

  /** The name of a single on-board square. */
  lemma ToUciSingle(t: Square)
    requires OnBoard(t.0, t.1)
    ensures ToUci([t]) == [SquareName(t.0, t.1)]
  {
    assert [t][1..] == [];
  }

  /** The single-step branch names the square ahead when it is empty. */
  lemma PawnAdvanceNames(g: Grid, row: int, col: int, color: Color, forwardRank: int)
    requires IsGrid(g) && OnBoard(row, col) && CanGenerate(Piece(Pawn, color), row)
    requires forwardRank == row + Direction(color)
    ensures ToUci(PawnAdvance(g, row, col, color)) ==
      if g[forwardRank][col].None? then [SquareName(forwardRank, col)] else []
  {
    if g[forwardRank][col].None? {
      ToUciSingle((forwardRank, col));
    }
  }

  /** A capture branch names the diagonal square ahead when it is on the board and holds the other color. */
  lemma PawnCaptureNames(g: Grid, row: int, col: int, color: Color, side: int, forwardRank: int, sideCol: int)
    requires IsGrid(g) && OnBoard(row, col) && CanGenerate(Piece(Pawn, color), row)
    requires side == -1 || side == 1
    requires forwardRank == row + Direction(color) && sideCol == col + side
    ensures ToUci(PawnCapture(g, row, col, color, side)) ==
      if 0 <= sideCol <= 7 && g[forwardRank][sideCol].Some? && g[forwardRank][sideCol].value.color != color
      then [SquareName(forwardRank, sideCol)] else []
  {
    if 0 <= sideCol <= 7 && g[forwardRank][sideCol].Some? && g[forwardRank][sideCol].value.color != color {
      ToUciSingle((forwardRank, sideCol));
    }
  }

  /** The double-step branch names the square two ahead, from the starting row, when it is empty. */
  lemma PawnDoubleNames(g: Grid, row: int, col: int, color: Color, forwardRank: int)
    requires IsGrid(g) && OnBoard(row, col) && CanGenerate(Piece(Pawn, color), row)
    requires forwardRank == row + 2 * Direction(color)
    ensures ToUci(PawnDouble(g, row, col, color)) ==
      if row == StartingRow(color) && g[forwardRank][col].None? then [SquareName(forwardRank, col)] else []
  {
    if row == StartingRow(color) && g[forwardRank][col].None? {
      ToUciSingle((forwardRank, col));
    }
  }

  /** The names of the pawn's targets are the names of its four branches, in order. */
  lemma PawnTargetsNames(g: Grid, row: int, col: int, color: Color)
    requires IsGrid(g) && OnBoard(row, col) && CanGenerate(Piece(Pawn, color), row)
    ensures ToUci(PawnTargets(g, row, col, color)) ==
      ToUci(PawnAdvance(g, row, col, color)) + ToUci(PawnCapture(g, row, col, color, -1))
      + ToUci(PawnCapture(g, row, col, color, 1)) + ToUci(PawnDouble(g, row, col, color))
  {
    var a := PawnAdvance(g, row, col, color);
    var l := PawnCapture(g, row, col, color, -1);
    var r := PawnCapture(g, row, col, color, 1);
    ToUciAppend(a, l);
    ToUciAppend(a + l, r);
    ToUciAppend(a + l + r, PawnDouble(g, row, col, color));
  }

  /**
   * `Pawn.get_legal_moves`: the single step, the left and the right capture,
   * then the double step, appended in turn. The double step consults only
   * the square two ahead.
   */
  method PawnMoves(g: Grid, row: int, col: int, color: Color) returns (moves: seq<string>)
    requires IsGrid(g) && OnBoard(row, col) && CanGenerate(Piece(Pawn, color), row)
    ensures moves == ToUci(PawnTargets(g, row, col, color))
  {
    var direction := if color == White then 1 else -1;
    var startingRow := if color == White then 1 else 6;
    var forwardRank := row + direction;
    var advance := [];
    if g[forwardRank][col].None? {
      advance := [SquareName(forwardRank, col)];
    }
    PawnAdvanceNames(g, row, col, color, forwardRank);
    assert advance == ToUci(PawnAdvance(g, row, col, color));

    var leftCol := col - 1;
    var rightCol := col + 1;
    var left := [];
    if leftCol >= 0 && leftCol <= 7 {
      var capturePiece := g[forwardRank][leftCol];
      if capturePiece.Some? && capturePiece.value.color != color {
        left := [SquareName(forwardRank, leftCol)];
      }
    }
    PawnCaptureNames(g, row, col, color, -1, forwardRank, leftCol);
    assert left == ToUci(PawnCapture(g, row, col, color, -1));
    var right := [];
    if rightCol >= 0 && rightCol <= 7 {
      var capturePiece := g[forwardRank][rightCol];
      if capturePiece.Some? && capturePiece.value.color != color {
        right := [SquareName(forwardRank, rightCol)];
      }
    }
    PawnCaptureNames(g, row, col, color, 1, forwardRank, rightCol);
    assert right == ToUci(PawnCapture(g, row, col, color, 1));

    var double := [];
    if row == startingRow {
      forwardRank := forwardRank + direction;
      if g[forwardRank][col].None? {
        double := [SquareName(forwardRank, col)];
      }
    }
    PawnDoubleNames(g, row, col, color, row + 2 * direction);

    PawnTargetsNames(g, row, col, color);
    moves := advance + left + right + double;
  }

  /** `piece.get_legal_moves()` for a piece of any kind standing on (row, col). */
  method GetLegalMoves(g: Grid, p: Piece, row: int, col: int) returns (moves: seq<string>)
    requires IsGrid(g) && OnBoard(row, col) && CanGenerate(p, row)
    ensures moves == LegalMoves(g, p, row, col)
  {
    match p.kind {
      case Pawn =>
        moves := PawnMoves(g, row, col, p.color);
      case Knight =>
        moves := KnightMoves(g, row, col, p.color);
      case Bishop =>
        moves := SlidingMoves(g, row, col, p.color, BishopDirections, 8);
      case Rook =>
        moves := SlidingMoves(g, row, col, p.color, RookDirections, 8);
      case Queen =>
        var straight := SlidingMoves(g, row, col, p.color, RookDirections, 8);
        var diagonal := SlidingMoves(g, row, col, p.color, BishopDirections, 8);
        ToUciAppend(Rays(g, row, col, p.color, RookDirections, 8), Rays(g, row, col, p.color, BishopDirections, 8));
        moves := straight + diagonal;
      case King =>
        var straight := SlidingMoves(g, row, col, p.color, RookDirections, 2);
        var diagonal := SlidingMoves(g, row, col, p.color, BishopDirections, 2);
        ToUciAppend(Rays(g, row, col, p.color, RookDirections, 2), Rays(g, row, col, p.color, BishopDirections, 2));
        moves := straight + diagonal;
    }
  }
}
