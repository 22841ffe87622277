/**
 * The square codec of `utils/static_chess_methods.py`: "E4"-style names
 * to and from zero-based (row, col) grid indices. Row 0 is rank 1 and
 * column 0 is file A.
 */
module SquareCodec {
  import opened Wrappers
  import opened Text

  /** A (row, col) pair of grid indices. */
  type Square = (int, int)

  const Files: string := "ABCDEFGH"
  const Ranks: string := "12345678"

  predicate OnBoard(row: int, col: int)
  {
    0 <= row < 8 && 0 <= col < 8
  }

  function DigitChar(d: int): (c: char)
    requires 0 <= d < 10
  {
    ('0' as int + d) as char
  }

  function NatDigits(n: nat): (s: string)
    ensures |s| >= 1
  {
    if n < 10 then [DigitChar(n)] else NatDigits(n / 10) + [DigitChar(n % 10)]
  }

  /** Python's `str(n)` for an integer: its decimal digits, with a leading '-' when negative. */
  function DecimalString(n: int): (s: string)
  {
    if n < 0 then "-" + NatDigits(-n) else NatDigits(n)
  }

  /**
   * `uci_to_indices`: strip and upper-case the text, then accept exactly one
   * file letter A-H followed by one rank digit 1-8. `None` stands for the
   * source's `(None, None)`. The membership tests `c in "ABCDEFGH"` and
   * `c in "12345678"` are written as character ranges (FileMembership and
   * RankMembership show the two agree).
   */
  function UciToIndices(position: string): (sq: Option<Square>)
    ensures sq.Some? ==> OnBoard(sq.value.0, sq.value.1)
  {
    var p := Upper(Strip(position));
    if |p| != 2 then None
    else if !('A' <= p[0] <= 'H') || !('1' <= p[1] <= '8') then None
    else
      var col := p[0] as int - 'A' as int;
      var row := (p[1] as int - '0' as int) - 1;
      Some((row, col))
  }

  /**
   * `indices_to_uci`: the file letter of `col` followed by the decimal form
   * of `row + 1`. The column indexes "ABCDEFGH", so it must lie in [0, 7]
   * (a negative column would wrap around in Python); the row is not checked.
   */
  function IndicesToUci(row: int, col: int): (uci: string)
    requires 0 <= col < 8
    ensures |uci| >= 2 && uci[0] == Files[col]
  {
    [Files[col]] + DecimalString(row + 1)
  }

  /**
   * The name of an on-board square as two characters, file then rank.
   * Every caller of `indices_to_uci` in the move generators passes an
   * on-board square, and there this is the same text (SquareNameAgrees).
   */
  function SquareName(row: int, col: int): (name: string)
    requires OnBoard(row, col)
  {
    [Files[col], Ranks[row]]
  }

  lemma FileLetter(col: int)
    requires 0 <= col < 8
    ensures Files[col] as int == 'A' as int + col
  {
    if col == 0 {} else if col == 1 {} else if col == 2 {} else if col == 3 {}
    else if col == 4 {} else if col == 5 {} else if col == 6 {} else {}
  }

  lemma FileMembership(c: char)
    ensures c in Files <==> 'A' <= c <= 'H'
    ensures c in Files ==> Files[c as int - 'A' as int] == c
  {
    if 'A' <= c <= 'H' {
      FileLetter(c as int - 'A' as int);
    }
    if c in Files {
      var k :| 0 <= k < |Files| && Files[k] == c;
      FileLetter(k);
    }
  }

  lemma RankLetter(row: int)
    requires 0 <= row < 8
    ensures Ranks[row] == DigitChar(row + 1)
  {
    if row == 0 {} else if row == 1 {} else if row == 2 {} else if row == 3 {}
    else if row == 4 {} else if row == 5 {} else if row == 6 {} else {}
  }

  lemma RankMembership(c: char)
    ensures c in Ranks <==> '1' <= c <= '8'
  {
    if '1' <= c <= '8' {
      RankLetter(c as int - '1' as int);
    }
    if c in Ranks {
      var k :| 0 <= k < |Ranks| && Ranks[k] == c;
      RankLetter(k);
    }
  }

  /** On the board, `indices_to_uci` yields the two-character name, already stripped and upper case. */
  lemma SquareNameAgrees(row: int, col: int)
    requires OnBoard(row, col)
    ensures IndicesToUci(row, col) == SquareName(row, col)
    ensures Upper(Strip(SquareName(row, col))) == SquareName(row, col)
  {
    var s := SquareName(row, col);
    FileLetter(col);
    RankLetter(row);
    assert IndicesToUci(row, col) == s;
    StripStripped(s);
  }

  /** Round trip: every on-board square survives `indices_to_uci` then `uci_to_indices`. */
  lemma UciRoundTrip(row: int, col: int)
    requires OnBoard(row, col)
    ensures UciToIndices(IndicesToUci(row, col)) == Some((row, col))
  {
    SquareNameAgrees(row, col);
    FileLetter(col);
    RankLetter(row);
  }

  /** Reverse round trip: an accepted name comes back as its stripped, upper-cased text. */
  lemma UciReverseRoundTrip(position: string)
    requires UciToIndices(position).Some?
    ensures IndicesToUci(UciToIndices(position).value.0, UciToIndices(position).value.1)
            == Upper(Strip(position))
  {
    var p := Upper(Strip(position));
    FileLetter(p[0] as int - 'A' as int);
    RankLetter(p[1] as int - '1' as int);
  }

  /** Distinct on-board squares have distinct names. */
  lemma IndicesToUciInjective(a: Square, b: Square)
    requires OnBoard(a.0, a.1) && OnBoard(b.0, b.1)
    ensures IndicesToUci(a.0, a.1) == IndicesToUci(b.0, b.1) <==> a == b
  {
    if IndicesToUci(a.0, a.1) == IndicesToUci(b.0, b.1) {
      UciRoundTrip(a.0, a.1);
      UciRoundTrip(b.0, b.1);
    }
  }

  /** Distinct on-board squares have distinct two-character names. */
  lemma SquareNameInjective(a: Square, b: Square)
    requires OnBoard(a.0, a.1) && OnBoard(b.0, b.1)
    ensures SquareName(a.0, a.1) == SquareName(b.0, b.1) <==> a == b
  {
    SquareNameAgrees(a.0, a.1);
    SquareNameAgrees(b.0, b.1);
    IndicesToUciInjective(a, b);
  }

  /** A name is accepted exactly when its stripped, upper-cased text is one of the 64 square names. */
  lemma UciAcceptsExactlySquareNames(position: string)
    ensures UciToIndices(position).Some? <==>
            exists row, col :: OnBoard(row, col) && Upper(Strip(position)) == IndicesToUci(row, col)
  {
    if UciToIndices(position).Some? {
      UciReverseRoundTrip(position);
      var sq := UciToIndices(position).value;
      assert OnBoard(sq.0, sq.1) && Upper(Strip(position)) == IndicesToUci(sq.0, sq.1);
    } else if exists row, col :: OnBoard(row, col) && Upper(Strip(position)) == IndicesToUci(row, col) {
      var row, col :| OnBoard(row, col) && Upper(Strip(position)) == IndicesToUci(row, col);
      UciRoundTrip(row, col);
      assert false;
    }
  }

  lemma NamedSquare(name: string, row: int, col: int)
    requires OnBoard(row, col) && name == SquareName(row, col)
    ensures UciToIndices(name) == Some((row, col))
  {
    UciRoundTrip(row, col);
    SquareNameAgrees(row, col);
  }

  /** The four corners. */
  lemma UciCornerExamples()
    ensures UciToIndices("A1") == Some((0, 0)) && UciToIndices("H1") == Some((0, 7))
    ensures UciToIndices("A8") == Some((7, 0)) && UciToIndices("H8") == Some((7, 7))
  {
    NamedSquare("A1", 0, 0);
    NamedSquare("H1", 0, 7);
    NamedSquare("A8", 7, 0);
    NamedSquare("H8", 7, 7);
  }

  /** Two centre squares: E4 is row 3, column 4. */
  lemma UciCentreExamples()
    ensures UciToIndices("E4") == Some((3, 4)) && UciToIndices("D5") == Some((4, 3))
  {
    NamedSquare("E4", 3, 4);
    NamedSquare("D5", 4, 3);
  }

  /** Lower case is normalised away before validation. */
  lemma UciLowerCaseExample()
    ensures UciToIndices("e4") == Some((3, 4))
  {
    StripStripped("e4");
    assert Upper("e4") == "E4";
  }

  /** Surrounding whitespace is normalised away before validation. */
  lemma UciPaddedExample()
    ensures UciToIndices(" E4 ") == Some((3, 4))
  {
    assert LeadingSpace(" E4 ") == 1;
    assert TrailingSpace(" E4 ") == 1;
    assert Strip(" E4 ") == "E4";
    StripStripped("E4");
    assert Upper("E4") == "E4";
  }

  /** Wrong letters, wrong length and the empty text are all rejected. */
  lemma UciRejectionExamples()
    ensures UciToIndices("Z9") == None && UciToIndices("Invalid") == None
    ensures UciToIndices("") == None
  {
    StripStripped("Z9");
    assert Upper("Z9")[0] == 'Z';
    StripStripped("Invalid");
  }
}
