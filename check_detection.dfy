/**
 * `utils/check_detector.py`: find a color's king by a row-major scan, and
 * decide whether any piece of the other color has the king's square among
 * its generated moves.
 */
module CheckDetection {
  import opened Wrappers
  import opened SquareCodec
  import opened PieceModel
  import opened MoveGen
  import opened MoveGenFacts

  // ---------------------------------------------------------------- finding the king

  predicate IsKingOf(cell: Option<Piece>, color: Color)
  {
    cell.Some? && cell.value.kind == King && cell.value.color == color
  }

  /** `a` comes strictly before `b` in row-major order. */
  predicate Before(a: Square, b: Square)
  {
    a.0 < b.0 || (a.0 == b.0 && a.1 < b.1)
  }

  /** The first king of `color` at or after (row, col) in row-major order. */
  function KingFrom(g: Grid, color: Color, row: int, col: int): (k: Option<Square>)
    requires IsGrid(g) && 0 <= row <= 8 && 0 <= col < 8
    ensures k.Some? ==> OnBoard(k.value.0, k.value.1) && IsKingOf(g[k.value.0][k.value.1], color)
    decreases 8 - row, 8 - col
  {
    if row == 8 then None
    else if IsKingOf(g[row][col], color) then Some((row, col))
    else if col == 7 then KingFrom(g, color, row + 1, 0)
    else KingFrom(g, color, row, col + 1)
  }

  /** The square `find_king` reports; `None` for the source's `(None, None)`. */
  function KingSquare(g: Grid, color: Color): Option<Square>
    requires IsGrid(g)
  {
    KingFrom(g, color, 0, 0)
  }

  /** A king the scan from (row, col) finds is the first one at or after (row, col). */
  lemma {:induction false} KingFromFirst(g: Grid, color: Color, row: int, col: int)
    requires IsGrid(g) && 0 <= row <= 8 && 0 <= col < 8
    requires KingFrom(g, color, row, col).Some?
    ensures var s := KingFrom(g, color, row, col).value;
      !Before(s, (row, col)) &&
      forall r, c :: 0 <= r < 8 && 0 <= c < 8 && !Before((r, c), (row, col)) && Before((r, c), s) ==>
        !IsKingOf(g[r][c], color)
    decreases 8 - row, 8 - col
  {
    if !IsKingOf(g[row][col], color) {
      if col == 7 {
        KingFromFirst(g, color, row + 1, 0);
      } else {
        KingFromFirst(g, color, row, col + 1);
      }
    }
  }

  /** The scan from (row, col) finds nothing only when no king of `color` is at or after (row, col). */
  lemma {:induction false} KingFromNone(g: Grid, color: Color, row: int, col: int)
    requires IsGrid(g) && 0 <= row <= 8 && 0 <= col < 8
    requires KingFrom(g, color, row, col).None?
    ensures forall r, c :: 0 <= r < 8 && 0 <= c < 8 && !Before((r, c), (row, col)) ==> !IsKingOf(g[r][c], color)
    decreases 8 - row, 8 - col
  {
    if row < 8 {
      if col == 7 {
        KingFromNone(g, color, row + 1, 0);
      } else {
        KingFromNone(g, color, row, col + 1);
      }
    }
  }

  /**
   * `find_king` returns the first king of the color in row-major order,
   * and `(None, None)` exactly when the color has no king on the board.
   */
  lemma KingSquareIsFirst(g: Grid, color: Color)
    requires IsGrid(g)
    ensures KingSquare(g, color).Some? ==>
      var s := KingSquare(g, color).value;
      OnBoard(s.0, s.1) && IsKingOf(g[s.0][s.1], color) &&
      forall r, c :: 0 <= r < 8 && 0 <= c < 8 && Before((r, c), s) ==> !IsKingOf(g[r][c], color)
    ensures KingSquare(g, color).None? <==>
      forall r, c :: 0 <= r < 8 && 0 <= c < 8 ==> !IsKingOf(g[r][c], color)
  {
    if KingSquare(g, color).Some? {
      KingFromFirst(g, color, 0, 0);
    } else {
      KingFromNone(g, color, 0, 0);
    }
  }

  /** `find_king`: scan the rows, then the columns, and return at the first king of `color`. */
  method FindKing(color: Color, g: Grid) returns (king: Option<Square>)
    requires IsGrid(g)
    ensures king == KingSquare(g, color)
  {
    for row := 0 to 8
      invariant KingSquare(g, color) == KingFrom(g, color, row, 0)
    {
      for col := 0 to 8
        invariant KingSquare(g, color) == KingFrom(g, color, row, if col == 8 then 7 else col)
        invariant col == 8 ==> KingSquare(g, color) == KingFrom(g, color, row + 1, 0)
      {
        var piece := g[row][col];
        if piece.Some? && piece.value.kind == King && piece.value.color == color {
          return Some((row, col));
        }
      }
    }
    return None;
  }

  // ---------------------------------------------------------------- names

  /**
   * `indices_to_position`: `chr(ord('A') + col)` followed by `str(row + 1)`.
   * The character code must be one Dafny can represent below the surrogate
   * range.
   */
  function IndicesToPosition(row: int, col: int): (position: string)
    requires 0 <= 'A' as int + col < 0xD800
    ensures |position| >= 2 && position[0] as int == 'A' as int + col
  {
    [('A' as int + col) as char] + DecimalString(row + 1)
  }

  /** On the board, `indices_to_position` and `indices_to_uci` give the same name. */
  lemma IndicesToPositionAgrees(row: int, col: int)
    requires OnBoard(row, col)
    ensures IndicesToPosition(row, col) == IndicesToUci(row, col)
    ensures IndicesToPosition(row, col) == SquareName(row, col)
  {
    FileLetter(col);
    SquareNameAgrees(row, col);
  }

  // ---------------------------------------------------------------- check

  /**
   * The piece on (r, c) is of the other color and names the king's square
   * among its generated moves. A pawn whose generator would read past the
   * last row never counts.
   */
  predicate Attacks(g: Grid, color: Color, king: Square, r: int, c: int)
    requires IsGrid(g) && OnBoard(king.0, king.1) && OnBoard(r, c)
  {
    var cell := g[r][c];
    cell.Some? && cell.value.color == Opponent(color) && CanGenerate(cell.value, r) &&
    IndicesToPosition(king.0, king.1) in LegalMoves(g, cell.value, r, c)
  }

  /** Every piece of `side` can run its generator without reading past the board. */
  predicate Generable(g: Grid, side: Color)
    requires IsGrid(g)
  {
    forall r, c :: 0 <= r < 8 && 0 <= c < 8 && g[r][c].Some? && g[r][c].value.color == side ==>
      CanGenerate(g[r][c].value, r)
  }

  /**
   * Which squares hold a piece that attacks the king's square: exactly the
   * squares of the other color's pieces whose generator reaches it.
   */
  function AttackMap(g: Grid, color: Color, king: Square): (marks: seq<seq<bool>>)
    requires IsGrid(g) && OnBoard(king.0, king.1)
    ensures |marks| == 8 && forall r :: 0 <= r < 8 ==> |marks[r]| == 8
    ensures forall r, c :: 0 <= r < 8 && 0 <= c < 8 ==> (marks[r][c] <==> Threatens(g, color, king, r, c))
  {
    var marks := seq(8, r requires 0 <= r < 8 => seq(8, c requires 0 <= c < 8 => Attacks(g, color, king, r, c)));
    assert forall r, c | 0 <= r < 8 && 0 <= c < 8 :: marks[r][c] <==> Threatens(g, color, king, r, c) by {
      forall r, c | 0 <= r < 8 && 0 <= c < 8
        ensures marks[r][c] <==> Threatens(g, color, king, r, c)
      {
        AttacksIffThreatens(g, color, king, r, c);
      }
    }
    marks
  }

  /** Some square at or after (row, col) in row-major order is marked. */
  predicate MarkedFrom(marks: seq<seq<bool>>, row: int, col: int)
    requires |marks| == 8 && forall r :: 0 <= r < 8 ==> |marks[r]| == 8
    requires 0 <= row <= 8 && 0 <= col < 8
    decreases 8 - row, 8 - col
  {
    if row == 8 then false
    else if marks[row][col] then true
    else if col == 7 then MarkedFrom(marks, row + 1, 0)
    else MarkedFrom(marks, row, col + 1)
  }

  /** The row-major scan from (row, col) succeeds exactly when a square at or after it is marked. */
  lemma {:induction false} MarkedFromMeans(marks: seq<seq<bool>>, row: int, col: int)
    requires |marks| == 8 && forall r :: 0 <= r < 8 ==> |marks[r]| == 8
    requires 0 <= row <= 8 && 0 <= col < 8
    ensures MarkedFrom(marks, row, col) <==>
      exists r, c :: 0 <= r < 8 && 0 <= c < 8 && !Before((r, c), (row, col)) && marks[r][c]
    decreases 8 - row, 8 - col
  {
    if row < 8 {
      var (nextRow, nextCol) := if col == 7 then (row + 1, 0) else (row, col + 1);
      MarkedFromMeans(marks, nextRow, nextCol);
      if exists r, c :: 0 <= r < 8 && 0 <= c < 8 && !Before((r, c), (row, col)) && marks[r][c] {
        var r, c :| 0 <= r < 8 && 0 <= c < 8 && !Before((r, c), (row, col)) && marks[r][c];
        if (r, c) != (row, col) {
          assert !Before((r, c), (nextRow, nextCol));
        }
      }
    }
  }

  /** `is_in_check`: the color has a king, and some piece of the other color attacks its square. */
  predicate InCheck(g: Grid, color: Color)
    requires IsGrid(g)
  {
    var king := KingSquare(g, color);
    king.Some? && MarkedFrom(AttackMap(g, color, king.value), 0, 0)
  }

  /** Whether (r, c) attacks is decided by the generated move list of its piece. */
  lemma AttacksByMoves(g: Grid, color: Color, king: Square, r: int, c: int, moves: seq<string>)
    requires IsGrid(g) && OnBoard(king.0, king.1) && OnBoard(r, c)
    requires g[r][c].Some? && g[r][c].value.color == Opponent(color) && CanGenerate(g[r][c].value, r)
    requires moves == LegalMoves(g, g[r][c].value, r, c)
    ensures Attacks(g, color, king, r, c) <==> IndicesToPosition(king.0, king.1) in moves
  {
  }

  /**
   * `is_in_check`: find the king (no king, no check), then try every piece
   * of the other color in row-major order, skipping empty squares and the
   * color's own pieces.
   */
  method IsInCheck(color: Color, g: Grid) returns (check: bool)
    requires IsGrid(g)
    requires KingSquare(g, color).Some? ==> Generable(g, Opponent(color))
    ensures check == InCheck(g, color)
  {
    var king := FindKing(color, g);
    if king.None? {
      return false;
    }
    var kingPos := IndicesToPosition(king.value.0, king.value.1);
    var enemyColor := if color == White then Black else White;
    ghost var marks := AttackMap(g, color, king.value);
    for row := 0 to 8
      invariant InCheck(g, color) == MarkedFrom(marks, row, 0)
    {
      for col := 0 to 8
        invariant InCheck(g, color) == MarkedFrom(marks, row, if col == 8 then 7 else col)
        invariant col == 8 ==> InCheck(g, color) == MarkedFrom(marks, row + 1, 0)
      {
        var piece := g[row][col];
        if piece.None? || piece.value.color != enemyColor {
          continue;
        }
        var pieceLegalMoves := GetLegalMoves(g, piece.value, row, col);
        AttacksByMoves(g, color, king.value, row, col, pieceLegalMoves);
        if kingPos in pieceLegalMoves {
          return true;
        }
      }
    }
    return false;
  }

  /**
   * The piece on (r, c) is of the other color and has the king's square
   * among the destinations its generator produces.
   */
  predicate Threatens(g: Grid, color: Color, king: Square, r: int, c: int)
    requires IsGrid(g) && OnBoard(r, c)
  {
    g[r][c].Some? && g[r][c].value.color == Opponent(color) &&
    CanGenerate(g[r][c].value, r) && king in Targets(g, g[r][c].value, r, c)
  }

  /** Attacking by name and threatening by square agree. */
  lemma AttacksIffThreatens(g: Grid, color: Color, king: Square, r: int, c: int)
    requires IsGrid(g) && OnBoard(king.0, king.1) && OnBoard(r, c)
    ensures Attacks(g, color, king, r, c) <==> Threatens(g, color, king, r, c)
  {
    IndicesToPositionAgrees(king.0, king.1);
    if g[r][c].Some? && CanGenerate(g[r][c].value, r) {
      NameInToUci(Targets(g, g[r][c].value, r, c), king);
    }
  }

  /** An attacker found by the scan threatens the king's square. */
  lemma CheckHasThreat(g: Grid, color: Color, king: Square)
    requires IsGrid(g) && OnBoard(king.0, king.1)
    requires MarkedFrom(AttackMap(g, color, king), 0, 0)
    ensures exists r, c :: 0 <= r < 8 && 0 <= c < 8 && Threatens(g, color, king, r, c)
  {
    var marks := AttackMap(g, color, king);
    MarkedFromMeans(marks, 0, 0);
    var r, c :| 0 <= r < 8 && 0 <= c < 8 && !Before((r, c), (0, 0)) && marks[r][c];
  }

  /** A piece threatening the king's square is found by the scan. */
  lemma ThreatGivesCheck(g: Grid, color: Color, king: Square, r: int, c: int)
    requires IsGrid(g) && OnBoard(king.0, king.1) && OnBoard(r, c)
    requires Threatens(g, color, king, r, c)
    ensures MarkedFrom(AttackMap(g, color, king), 0, 0)
  {
    var marks := AttackMap(g, color, king);
    MarkedFromMeans(marks, 0, 0);
    assert !Before((r, c), (0, 0)) && marks[r][c];
  }

  /**
   * In check exactly when the color has a king and some piece of the other
   * color has the king's square among the destinations its generator produces.
   */
  lemma InCheckBySquares(g: Grid, color: Color)
    requires IsGrid(g)
    ensures InCheck(g, color) <==>
      KingSquare(g, color).Some? &&
      exists r, c :: 0 <= r < 8 && 0 <= c < 8 && Threatens(g, color, KingSquare(g, color).value, r, c)
  {
    if KingSquare(g, color).Some? {
      var king := KingSquare(g, color).value;
      if InCheck(g, color) {
        CheckHasThreat(g, color, king);
      }
      if exists r, c :: 0 <= r < 8 && 0 <= c < 8 && Threatens(g, color, king, r, c) {
        var r, c :| 0 <= r < 8 && 0 <= c < 8 && Threatens(g, color, king, r, c);
        ThreatGivesCheck(g, color, king, r, c);
      }
    }
  }
}
