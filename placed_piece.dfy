/**
 * The piece objects of `utils/pieces.py`: a kind and a color fixed at
 * creation, and a (row, col) position that `set_row_col` updates in place.
 * The six subclasses differ only in their kind and in which generator
 * `get_legal_moves` runs, so one class holds a `Piece` value and dispatches
 * on its kind. The board the source stores in each piece is passed to
 * `GetLegalMoves` instead.
 */
module PlacedPieces {
  import opened Wrappers
  import opened SquareCodec
  import opened PieceModel
  import MoveGen

  class PlacedPiece {
    /** The kind (the subclass) and the color; neither changes after creation. */
    var piece: Piece
    var row: int
    var col: int

    /** `__init__` of any of the six subclasses: the arguments are stored unchanged. */
    constructor (kind: Kind, color: Color, row: int, col: int)
      ensures piece == Piece(kind, color) && this.row == row && this.col == col
    {
      piece := Piece(kind, color);
      this.row := row;
      this.col := col;
    }

    /**
     * `get_uci_pos`: the name of the square the piece stands on. The column
     * indexes "ABCDEFGH", so it must lie in [0, 7]; on the board, the name
     * reads back as the piece's own position.
     */
    function UciPos(): (uci: string)
      reads this
      requires 0 <= col < 8
      ensures |uci| >= 2 && uci[0] == Files[col]
      ensures OnBoard(row, col) ==> UciToIndices(uci) == Some((row, col))
    {
      var uci := IndicesToUci(row, col);
      if OnBoard(row, col) then UciRoundTrip(row, col); uci else uci
    }

    /** `set_row_col`: move the piece to (r, c); its kind and color stay. */
    method SetRowCol(r: int, c: int)
      modifies this
      ensures row == r && col == c && piece == old(piece)
      ensures OnBoard(r, c) ==> UciToIndices(UciPos()) == Some((r, c))
    {
      row := r;
      col := c;
    }

    /** `copy`: a new piece of the same kind and color on the same square. */
    method Copy() returns (p: PlacedPiece)
      ensures fresh(p)
      ensures p.piece == piece && p.row == row && p.col == col
    {
      p := new PlacedPiece(piece.kind, piece.color, row, col);
    }

    /**
     * `get_legal_moves` of the subclass: the names of the squares the piece
     * could move to from its position on `g`, by the generator of its kind.
     */
    method GetLegalMoves(g: Grid) returns (moves: seq<string>)
      requires IsGrid(g) && OnBoard(row, col) && MoveGen.CanGenerate(piece, row)
      ensures moves == MoveGen.LegalMoves(g, piece, row, col)
    {
      moves := MoveGen.GetLegalMoves(g, piece, row, col);
    }
  }

  /**
   * A copy is a separate object: moving the copy leaves the original where
   * it was.
   */
  method CopyMovesAlone(original: PlacedPiece, r: int, c: int) returns (copy: PlacedPiece)
    ensures fresh(copy) && copy.row == r && copy.col == c && copy.piece == original.piece
    ensures original.row == old(original.row) && original.col == old(original.col)
  {
    copy := original.Copy();
    copy.SetRowCol(r, c);
  }
}
