/**
 * The data-only piece of `utils/piece.py` and the 8x8 grid of optional
 * pieces that every other module reads. Kinds and colors are closed
 * enumerations: the source spells them as the strings 'king', ..., 'pawn'
 * and 'white' / 'black'.
 */
module PieceModel {
  import opened Wrappers
  import opened SquareCodec

  datatype Kind = King | Queen | Rook | Bishop | Knight | Pawn

  datatype Color = White | Black

  /** `Piece(piece_type, color)`: the constructor stores both fields as given. */
  datatype Piece = Piece(kind: Kind, color: Color)

  /** The board's cells, indexed `grid[row][col]`; `None` is an empty square. */
  type Grid = seq<seq<Option<Piece>>>

  predicate IsGrid(g: Grid)
  {
    |g| == 8 && forall r :: 0 <= r < 8 ==> |g[r]| == 8
  }

  /** The color a color plays against: 'black' if the color is 'white', else 'white'. */
  function Opponent(c: Color): (o: Color)
    ensures o != c
  {
    if c == White then Black else White
  }

  /** The lower-case letter of the `piece_chars` table; the knight is 'n' so it differs from the king. */
  function KindChar(k: Kind): (ch: char)
    ensures 'a' <= ch <= 'z'
  {
    match k
    case King => 'k'
    case Queen => 'q'
    case Rook => 'r'
    case Bishop => 'b'
    case Knight => 'n'
    case Pawn => 'p'
  }

  /** `__str__`: the kind's letter, upper case for white and lower case otherwise. */
  function DisplayChar(p: Piece): (ch: char)
    ensures p.color == White ==> 'A' <= ch <= 'Z'
    ensures p.color != White ==> 'a' <= ch <= 'z'
  {
    var ch := KindChar(p.kind);
    if p.color == White then (ch as int - 32) as char else ch
  }

  /** The display letter tells the kind and the color apart: twelve pieces, twelve letters. */
  lemma DisplayCharInjective(p: Piece, q: Piece)
    ensures DisplayChar(p) == DisplayChar(q) <==> p == q
  {
    if DisplayChar(p) == DisplayChar(q) {
      assert p.color == q.color;
      assert KindChar(p.kind) == KindChar(q.kind);
    }
  }

  /** The display letters the board shows for the two kings and knights. */
  lemma DisplayCharExamples()
    ensures DisplayChar(Piece(King, White)) == 'K' && DisplayChar(Piece(King, Black)) == 'k'
    ensures DisplayChar(Piece(Knight, White)) == 'N' && DisplayChar(Piece(Knight, Black)) == 'n'
  {
  }
}
