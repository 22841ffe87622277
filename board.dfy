/**
 * The board of `utils/board.py`: an 8x8 grid of optional pieces, the
 * opening layout, square lookup by name, and `move_piece`, which moves a
 * piece in place and promotes a pawn that reaches the far row to a queen.
 */
module ChessBoard {
  import opened Wrappers
  import opened Text
  import opened SquareCodec
  import opened PieceModel

  // ---------------------------------------------------------------- names

  /**
   * `Board.position_to_indices`, written as the board writes it: the file
   * letter must be in "ABCDEFGH" and the rank digit in "12345678", and the
   * row is `int(rank_char) - 1`.
   */
  function PositionToIndices(position: string): (sq: Option<Square>)
    ensures sq.Some? ==> OnBoard(sq.value.0, sq.value.1)
  {
    var p := Upper(Strip(position));
    if |p| != 2 then None
    else if p[0] !in Files || p[1] !in Ranks then None
    else Some(((p[1] as int - '0' as int) - 1, p[0] as int - 'A' as int))
  }

  /** The board's copy of the codec agrees with `uci_to_indices` on every text. */
  lemma PositionToIndicesAgrees(position: string)
    ensures PositionToIndices(position) == UciToIndices(position)
  {
    var p := Upper(Strip(position));
    if |p| == 2 {
      FileMembership(p[0]);
      RankMembership(p[1]);
    }
  }

  // ---------------------------------------------------------------- the opening layout

  /** The back rank from file A to file H: rook, knight, bishop, queen, king, bishop, knight, rook. */
  const BackRank: seq<Kind> := [Rook, Knight, Bishop, Queen, King, Bishop, Knight, Rook]

  /** What `setup_initial_position` puts on (row, col); rows 2 to 5 are left empty. */
  function InitialCell(row: int, col: int): Option<Piece>
    requires OnBoard(row, col)
  {
    if row == 0 then Some(Piece(BackRank[col], White))
    else if row == 1 then Some(Piece(Pawn, White))
    else if row == 6 then Some(Piece(Pawn, Black))
    else if row == 7 then Some(Piece(BackRank[col], Black))
    else None
  }

  /**
   * The whole board after `Board()`: the back ranks and the pawns of each
   * side in place, the middle four rows empty.
   */
  function InitialGrid(): (g: Grid)
    ensures IsGrid(g)
    ensures forall c :: 0 <= c < 8 ==> g[0][c] == Some(Piece(BackRank[c], White)) && g[1][c] == Some(Piece(Pawn, White))
    ensures forall c :: 0 <= c < 8 ==> g[7][c] == Some(Piece(BackRank[c], Black)) && g[6][c] == Some(Piece(Pawn, Black))
    ensures forall r, c :: 2 <= r <= 5 && 0 <= c < 8 ==> g[r][c].None?
  {
    seq(8, r requires 0 <= r < 8 => seq(8, c requires 0 <= c < 8 => InitialCell(r, c)))
  }

  // ---------------------------------------------------------------- counting

  /** A cell that holds a piece of `side` (of either color when `side` is `None`). */
  predicate Holds(cell: Option<Piece>, side: Option<Color>)
  {
    cell.Some? && (side.None? || cell.value.color == side.value)
  }

  function RowCount(cells: seq<Option<Piece>>, side: Option<Color>): (n: nat)
    ensures n <= |cells|
  {
    if cells == [] then 0
    else RowCount(cells[..|cells| - 1], side) + (if Holds(cells[|cells| - 1], side) then 1 else 0)
  }

  /** The number of pieces of `side` on the board (all pieces when `side` is `None`). */
  function Count(g: Grid, side: Option<Color>): nat
  {
    if g == [] then 0 else Count(g[..|g| - 1], side) + RowCount(g[|g| - 1], side)
  }

  /** Replacing one cell of a row changes the row's count by the difference the two cells make. */
  lemma {:induction false} RowCountUpdate(cells: seq<Option<Piece>>, i: int, v: Option<Piece>, side: Option<Color>)
    requires 0 <= i < |cells|
    ensures RowCount(cells[i := v], side) + (if Holds(cells[i], side) then 1 else 0)
         == RowCount(cells, side) + (if Holds(v, side) then 1 else 0)
  {
    var n := |cells| - 1;
    if i < n {
      assert cells[i := v][..n] == cells[..n][i := v];
      RowCountUpdate(cells[..n], i, v, side);
    } else {
      assert cells[i := v][..n] == cells[..n];
    }
  }

  /** Replacing one cell of the board changes the count by the difference the two cells make. */
  lemma {:induction false} CountUpdate(g: Grid, r: int, c: int, v: Option<Piece>, side: Option<Color>)
    requires 0 <= r < |g| && 0 <= c < |g[r]|
    ensures Count(g[r := g[r][c := v]], side) + (if Holds(g[r][c], side) then 1 else 0)
         == Count(g, side) + (if Holds(v, side) then 1 else 0)
  {
    var n := |g| - 1;
    var h := g[r := g[r][c := v]];
    if r < n {
      assert h[..n] == g[..n][r := g[r][c := v]];
      CountUpdate(g[..n], r, c, v, side);
    } else {
      assert h[..n] == g[..n];
      RowCountUpdate(g[r], c, v, side);
    }
  }

  /** A row holding only pieces of `color` counts every cell for that color and for all pieces, none for the other. */
  lemma {:induction false} FullRowCount(cells: seq<Option<Piece>>, color: Color, side: Option<Color>)
    requires forall i :: 0 <= i < |cells| ==> cells[i].Some? && cells[i].value.color == color
    ensures RowCount(cells, side) == if side.None? || side.value == color then |cells| else 0
  {
    if cells != [] {
      FullRowCount(cells[..|cells| - 1], color, side);
    }
  }

  /** An empty row counts nothing. */
  lemma {:induction false} EmptyRowCount(cells: seq<Option<Piece>>, side: Option<Color>)
    requires forall i :: 0 <= i < |cells| ==> cells[i].None?
    ensures RowCount(cells, side) == 0
  {
    if cells != [] {
      EmptyRowCount(cells[..|cells| - 1], side);
    }
  }

  /** The count of the first `k + 1` rows adds the count of row `k`. */
  lemma CountPrefix(g: Grid, k: int, side: Option<Color>)
    requires 0 <= k < |g|
    ensures Count(g[..k + 1], side) == Count(g[..k], side) + RowCount(g[k], side)
  {
    assert g[..k + 1][..k] == g[..k];
  }

  /** The count of a board of eight rows is the sum of its rows' counts. */
  lemma CountRows(g: Grid, side: Option<Color>)
    requires |g| == 8
    ensures Count(g, side) == RowCount(g[0], side) + RowCount(g[1], side) + RowCount(g[2], side)
      + RowCount(g[3], side) + RowCount(g[4], side) + RowCount(g[5], side) + RowCount(g[6], side)
      + RowCount(g[7], side)
  {
    assert g[..0] == [];
    CountPrefix(g, 0, side);
    CountPrefix(g, 1, side);
    CountPrefix(g, 2, side);
    CountPrefix(g, 3, side);
    CountPrefix(g, 4, side);
    CountPrefix(g, 5, side);
    CountPrefix(g, 6, side);
    CountPrefix(g, 7, side);
    assert g[..8] == g;
  }

  /** Each side starts with sixteen pieces, two full rows of its color; thirty-two in all. */
  lemma InitialCounts(side: Option<Color>)
    ensures Count(InitialGrid(), side) == if side.None? then 32 else 16
  {
    var g := InitialGrid();
    FullRowCount(g[0], White, side);
    FullRowCount(g[1], White, side);
    EmptyRowCount(g[2], side);
    EmptyRowCount(g[3], side);
    EmptyRowCount(g[4], side);
    EmptyRowCount(g[5], side);
    FullRowCount(g[6], Black, side);
    FullRowCount(g[7], Black, side);
    CountRows(g, side);
  }

  // ---------------------------------------------------------------- moving

  /** A white pawn reaching row 7 or a black pawn reaching row 0 is promoted. */
  predicate Promotes(p: Piece, destRow: int)
  {
    p.kind == Pawn && ((p.color == White && destRow == 7) || (p.color == Black && destRow == 0))
  }

  /** `g` with the cell `s` replaced by `v`. */
  function Put(g: Grid, s: Square, v: Option<Piece>): (h: Grid)
    requires IsGrid(g) && OnBoard(s.0, s.1)
    ensures IsGrid(h)
    ensures forall r, c :: 0 <= r < 8 && 0 <= c < 8 ==> h[r][c] == if r == s.0 && c == s.1 then v else g[r][c]
  {
    g[s.0 := g[s.0][s.1 := v]]
  }

  /**
   * The board after `move_piece(source, destination)`, in the source's
   * order: the piece is written to the destination, the source is emptied,
   * and then a promoting pawn is replaced by a queen of its color.
   */
  function MoveResult(g: Grid, s: Square, d: Square): (h: Grid)
    requires IsGrid(g) && OnBoard(s.0, s.1) && OnBoard(d.0, d.1) && g[s.0][s.1].Some?
    ensures IsGrid(h)
  {
    var piece := g[s.0][s.1].value;
    var moved := Put(Put(g, d, Some(piece)), s, None);
    if Promotes(piece, d.0) then Put(moved, d, Some(Piece(Queen, piece.color))) else moved
  }

  /**
   * After a move between distinct squares the destination holds the moved
   * piece, or a queen of its color when a pawn reaches the far row, and the
   * source is empty; every other cell is as it was.
   */
  lemma MoveCells(g: Grid, s: Square, d: Square)
    requires IsGrid(g) && OnBoard(s.0, s.1) && OnBoard(d.0, d.1) && g[s.0][s.1].Some? && s != d
    ensures var p := g[s.0][s.1].value;
      MoveResult(g, s, d)[d.0][d.1] == Some(if Promotes(p, d.0) then Piece(Queen, p.color) else p)
    ensures MoveResult(g, s, d)[s.0][s.1].None?
    ensures forall r, c :: 0 <= r < 8 && 0 <= c < 8 && (r, c) != s && (r, c) != d ==>
      MoveResult(g, s, d)[r][c] == g[r][c]
  {
  }

  /**
   * Moving a piece onto its own square erases it, because the source is
   * emptied after the destination is written; only a promoting pawn leaves
   * a queen behind.
   */
  lemma MoveOntoItself(g: Grid, s: Square)
    requires IsGrid(g) && OnBoard(s.0, s.1) && g[s.0][s.1].Some?
    ensures var p := g[s.0][s.1].value;
      MoveResult(g, s, s)[s.0][s.1] == if Promotes(p, s.0) then Some(Piece(Queen, p.color)) else None
  {
  }

  /**
   * A move between distinct squares keeps the number of pieces when the
   * destination was empty and removes exactly one when it held a piece.
   */
  lemma MoveCount(g: Grid, s: Square, d: Square)
    requires IsGrid(g) && OnBoard(s.0, s.1) && OnBoard(d.0, d.1) && g[s.0][s.1].Some? && s != d
    ensures Count(MoveResult(g, s, d), None) == Count(g, None) - (if g[d.0][d.1].Some? then 1 else 0)
  {
    var piece := g[s.0][s.1].value;
    var g1 := Put(g, d, Some(piece));
    var g2 := Put(g1, s, None);
    CountUpdate(g, d.0, d.1, Some(piece), None);
    CountUpdate(g1, s.0, s.1, None, None);
    if Promotes(piece, d.0) {
      CountUpdate(g2, d.0, d.1, Some(Piece(Queen, piece.color)), None);
    }
  }

  // ---------------------------------------------------------------- the board object

  /**
   * `Board`: the list of eight rows of eight cells, updated in place. The
   * field is a grid value that each update reassigns.
   */
  class Board {
    var grid: Grid

    predicate Valid()
      reads this
    {
      IsGrid(grid)
    }

    /** `Board()`: an empty 8x8 grid, then the opening layout. */
    constructor()
      ensures Valid()
      ensures grid == InitialGrid()
    {
      grid := seq(8, r => seq(8, c => None));
      new;
      SetupInitialPosition();
      SameCells(grid, InitialGrid());
    }

    /**
     * `setup_initial_position`: the back ranks and the pawn rows are
     * written; rows 2 to 5 keep what they held.
     */
    method SetupInitialPosition()
      requires Valid()
      modifies this
      ensures Valid()
      ensures forall r, c :: 0 <= r < 8 && 0 <= c < 8 ==>
        grid[r][c] == if 2 <= r <= 5 then old(grid[r][c]) else InitialCell(r, c)
    {
      PlaceBackRank(0, White);
      for col := 0 to 8
        invariant Valid()
        invariant forall r, c :: 0 <= r < 8 && 0 <= c < 8 ==>
          grid[r][c] == if r == 0 || (r == 1 && c < col) then InitialCell(r, c) else old(grid[r][c])
      {
        grid := Put(grid, (1, col), Some(Piece(Pawn, White)));
      }
      for col := 0 to 8
        invariant Valid()
        invariant forall r, c :: 0 <= r < 8 && 0 <= c < 8 ==>
          grid[r][c] == if r <= 1 || (r == 6 && c < col) then InitialCell(r, c) else old(grid[r][c])
      {
        grid := Put(grid, (6, col), Some(Piece(Pawn, Black)));
      }
      PlaceBackRank(7, Black);
    }

    /**
     * The eight assignments that put one color's rook, knight, bishop,
     * queen, king, bishop, knight and rook on a back rank.
     */
    method PlaceBackRank(row: int, color: Color)
      requires Valid() && (row == 0 || row == 7)
      modifies this
      ensures Valid()
      ensures forall c :: 0 <= c < 8 ==> grid[row][c] == Some(Piece(BackRank[c], color))
      ensures forall r, c :: 0 <= r < 8 && r != row && 0 <= c < 8 ==> grid[r][c] == old(grid[r][c])
    {
      grid := Put(grid, (row, 0), Some(Piece(Rook, color)));
      grid := Put(grid, (row, 1), Some(Piece(Knight, color)));
      grid := Put(grid, (row, 2), Some(Piece(Bishop, color)));
      grid := Put(grid, (row, 3), Some(Piece(Queen, color)));
      grid := Put(grid, (row, 4), Some(Piece(King, color)));
      grid := Put(grid, (row, 5), Some(Piece(Bishop, color)));
      grid := Put(grid, (row, 6), Some(Piece(Knight, color)));
      grid := Put(grid, (row, 7), Some(Piece(Rook, color)));
    }

    /** `get_piece`: nothing for a malformed name, otherwise the named cell, which may itself be empty. */
    function GetPiece(position: string): (p: Option<Piece>)
      reads this
      requires Valid()
      ensures PositionToIndices(position).None? ==> p.None?
      ensures PositionToIndices(position).Some? ==>
        p == grid[PositionToIndices(position).value.0][PositionToIndices(position).value.1]
    {
      var sq := PositionToIndices(position);
      if sq.None? then None else grid[sq.value.0][sq.value.1]
    }

    /**
     * `move_piece(source, destination)`: both names must be valid and the
     * source occupied (the promotion test reads the moved piece's kind).
     * Returns what stood on the destination.
     */
    method MovePiece(source: string, destination: string) returns (captured: Option<Piece>)
      requires Valid()
      requires PositionToIndices(source).Some? && PositionToIndices(destination).Some?
      requires grid[PositionToIndices(source).value.0][PositionToIndices(source).value.1].Some?
      modifies this
      ensures Valid()
      ensures var s := PositionToIndices(source).value;
        var d := PositionToIndices(destination).value;
        grid == MoveResult(old(grid), s, d) && captured == old(grid)[d.0][d.1]
    {
      var s := PositionToIndices(source).value;
      var d := PositionToIndices(destination).value;
      var piece := grid[s.0][s.1].value;
      captured := grid[d.0][d.1];
      grid := Put(grid, d, Some(piece));
      grid := Put(grid, s, None);
      if piece.kind == Pawn {
        if piece.color == White && d.0 == 7 {
          grid := Put(grid, d, Some(Piece(Queen, White)));
        } else if piece.color == Black && d.0 == 0 {
          grid := Put(grid, d, Some(Piece(Queen, Black)));
        }
      }
    }
  }

  /** Two grids with the same cells are the same grid. */
  lemma SameCells(a: Grid, b: Grid)
    requires IsGrid(a) && IsGrid(b)
    requires forall r, c :: 0 <= r < 8 && 0 <= c < 8 ==> a[r][c] == b[r][c]
    ensures a == b
  {
    forall r | 0 <= r < 8
      ensures a[r] == b[r]
    {
    }
  }
}
