/**
 * `Game.parse_move` of `utils/game.py`: read a typed move such as
 * "e2 e4", "E2-E4", "E2,E4" or "E2, E4" into a source and a destination
 * name. The names are not checked against the board here.
 */
module MoveParsing {
  import opened Wrappers
  import opened Text

  /**
   * The pieces the input is cut into, by the first separator it contains
   * in the order ", ", ",", "-", " "; none when it contains none of them.
   */
  function Pieces(input: string): (parts: Option<seq<string>>)
    ensures parts.None? <==> !Contains(input, ",") && !Contains(input, "-") && !Contains(input, " ")
  {
    if Contains(input, ", ") then
      ContainsPart(input, ", ", 0, 1);
      assert ", "[0..1] == ",";
      Some(Split(input, ", "))
    else if Contains(input, ",") then Some(Split(input, ","))
    else if Contains(input, "-") then Some(Split(input, "-"))
    else if Contains(input, " ") then Some(SplitWhitespace(input))
    else None
  }

  /** Neither lower-case ASCII letters nor whitespace at either end: what `strip().upper()` gives. */
  predicate IsNormalised(s: string)
  {
    IsStripped(s) && forall i :: 0 <= i < |s| ==> !('a' <= s[i] <= 'z')
  }

  /** `strip()` then `upper()`. */
  function Normalise(s: string): (r: string)
    ensures IsNormalised(r)
  {
    var t := Strip(s);
    var u := Upper(t);
    assert t == [] ==> u == [];
    assert t != [] ==> u[0] == UpperChar(t[0]) && u[|u| - 1] == UpperChar(t[|t| - 1]);
    u
  }

  /**
   * `parse_move`: strip the input, cut it at the first separator found,
   * and give the two pieces stripped and upper-cased; `None` (the source's
   * `(None, None)`) when no separator is found or the cut does not give
   * exactly two pieces.
   */
  function ParseMove(input: string): (r: Option<(string, string)>)
    ensures r.Some? ==> IsNormalised(r.value.0) && IsNormalised(r.value.1)
    ensures r.Some? ==> Pieces(Strip(input)).Some? && |Pieces(Strip(input)).value| == 2
  {
    var parts := Pieces(Strip(input));
    if parts.None? || |parts.value| != 2 then None
    else Some((Normalise(parts.value[0]), Normalise(parts.value[1])))
  }

  // ---------------------------------------------------------------- properties

  /** A square name as a player may type it: no separator and no whitespace. */
  predicate IsWord(w: string)
  {
    w != [] && forall i :: 0 <= i < |w| ==> !IsSpace(w[i]) && w[i] != ',' && w[i] != '-'
  }

  /** A word holds none of the separators and does not start or end with whitespace. */
  lemma WordChars(w: string)
    requires IsWord(w)
    ensures ',' !in w && '-' !in w && ' ' !in w
    ensures !IsSpace(w[0]) && !IsSpace(w[|w| - 1])
  {
    assert forall i :: 0 <= i < |w| ==> w[i] != ' ' by {
      assert IsSpace(' ');
    }
  }

  /** `strip().upper()` of a word is its upper case. */
  lemma WordNormalised(w: string)
    requires IsWord(w)
    ensures Normalise(w) == Upper(w)
  {
    WordChars(w);
    StripStripped(w);
  }

  /** Two words joined by a separator are a stripped input. */
  lemma JoinedStripped(a: string, sep: string, b: string)
    requires IsWord(a) && IsWord(b)
    ensures Strip(a + sep + b) == a + sep + b
  {
    var s := a + sep + b;
    WordChars(a);
    WordChars(b);
    assert s[0] == a[0] && s[|s| - 1] == b[|b| - 1];
    StripStripped(s);
  }

  /** An input that is already stripped and cuts into two words is read as those words, upper-cased. */
  lemma ParseTwoPieces(input: string, a: string, b: string)
    requires Strip(input) == input && Pieces(input) == Some([a, b]) && IsWord(a) && IsWord(b)
    ensures ParseMove(input) == Some((Upper(a), Upper(b)))
  {
    WordNormalised(a);
    WordNormalised(b);
  }

  lemma PiecesCommaSpace(a: string, b: string)
    requires IsWord(a) && IsWord(b)
    ensures Pieces(a + ", " + b) == Some([a, b])
  {
    WordChars(a);
    WordChars(b);
    ContainsMiddle(a, ", ", b);
    SplitFirst(a, ", ", b);
    SplitNone(b, ", ");
    assert [a] + [b] == [a, b];
  }

  lemma PiecesComma(a: string, b: string)
    requires IsWord(a) && IsWord(b)
    ensures Pieces(a + "," + b) == Some([a, b])
  {
    WordChars(a);
    WordChars(b);
    NotContains(a + "," + b, ", ", 1);
    ContainsMiddle(a, ",", b);
    SplitFirst(a, ",", b);
    SplitNone(b, ",");
    assert [a] + [b] == [a, b];
  }

  lemma PiecesDash(a: string, b: string)
    requires IsWord(a) && IsWord(b)
    ensures Pieces(a + "-" + b) == Some([a, b])
  {
    WordChars(a);
    WordChars(b);
    NotContains(a + "-" + b, ", ", 0);
    NotContains(a + "-" + b, ",", 0);
    ContainsMiddle(a, "-", b);
    SplitFirst(a, "-", b);
    SplitNone(b, "-");
    assert [a] + [b] == [a, b];
  }

  lemma PiecesSpace(a: string, b: string)
    requires IsWord(a) && IsWord(b)
    ensures Pieces(a + " " + b) == Some([a, b])
  {
    WordChars(a);
    WordChars(b);
    NotContains(a + " " + b, ", ", 0);
    NotContains(a + " " + b, ",", 0);
    NotContains(a + " " + b, "-", 0);
    ContainsMiddle(a, " ", b);
    SplitTwoWords(a, b);
  }

  /** Two words joined by ", " are read back, upper-cased. */
  lemma ParseCommaSpace(a: string, b: string)
    requires IsWord(a) && IsWord(b)
    ensures ParseMove(a + ", " + b) == Some((Upper(a), Upper(b)))
  {
    JoinedStripped(a, ", ", b);
    PiecesCommaSpace(a, b);
    ParseTwoPieces(a + ", " + b, a, b);
  }

  /** Two words joined by "," are read back, upper-cased. */
  lemma ParseComma(a: string, b: string)
    requires IsWord(a) && IsWord(b)
    ensures ParseMove(a + "," + b) == Some((Upper(a), Upper(b)))
  {
    JoinedStripped(a, ",", b);
    PiecesComma(a, b);
    ParseTwoPieces(a + "," + b, a, b);
  }

  /** Two words joined by "-" are read back, upper-cased. */
  lemma ParseDash(a: string, b: string)
    requires IsWord(a) && IsWord(b)
    ensures ParseMove(a + "-" + b) == Some((Upper(a), Upper(b)))
  {
    JoinedStripped(a, "-", b);
    PiecesDash(a, b);
    ParseTwoPieces(a + "-" + b, a, b);
  }

  /** Two words joined by a space are read back, upper-cased. */
  lemma ParseSpace(a: string, b: string)
    requires IsWord(a) && IsWord(b)
    ensures ParseMove(a + " " + b) == Some((Upper(a), Upper(b)))
  {
    JoinedStripped(a, " ", b);
    PiecesSpace(a, b);
    ParseTwoPieces(a + " " + b, a, b);
  }

  lemma PiecesCommaBeforeDash(a: string, r: string)
    requires IsWord(a) && ',' !in r && ' ' !in r
    ensures Pieces(a + "," + r) == Some([a, r])
  {
    WordChars(a);
    var s := a + "," + r;
    assert ' ' !in s;
    NotContains(s, ", ", 1);
    ContainsMiddle(a, ",", r);
    SplitFirst(a, ",", r);
    SplitNone(r, ",");
    assert [a] + [r] == [a, r];
  }

  /** A stripped input cut into two pieces is read as the two pieces, normalised. */
  lemma ParseCut(input: string, x: string, y: string)
    requires Strip(input) == input && Pieces(input) == Some([x, y])
    ensures ParseMove(input) == Some((Normalise(x), Normalise(y)))
  {
  }

  /** With a "," present, the "-" is not looked for: it stays inside the second name. */
  lemma ParseCommaBeforeDash(a: string, b: string, c: string)
    requires IsWord(a) && IsWord(b) && IsWord(c)
    ensures ParseMove(a + "," + b + "-" + c) == Some((Upper(a), Upper(b + "-" + c)))
  {
    var r := b + "-" + c;
    var s := a + "," + r;
    assert a + "," + b + "-" + c == s;
    WordChars(b);
    WordChars(c);
    assert ',' !in r && ' ' !in r;
    PiecesCommaBeforeDash(a, r);
    WordChars(a);
    assert s[0] == a[0] && s[|s| - 1] == r[|r| - 1];
    StripStripped(s);
    ParseCut(s, a, r);
    WordNormalised(a);
    JoinedStripped(b, "-", c);
  }

  /** With a ", " present, a lone "," is not cut at: it stays inside the first name. */
  lemma ParseCommaSpaceBeforeComma(a: string, b: string, c: string)
    requires IsWord(a) && IsWord(b) && IsWord(c)
    ensures ParseMove(a + "," + b + ", " + c) == Some((Upper(a + "," + b), Upper(c)))
  {
    WordChars(a);
    WordChars(b);
    WordChars(c);
    var left := a + "," + b;
    var s := left + ", " + c;
    assert a + "," + b + ", " + c == s;
    assert ' ' !in left;
    forall i | 0 <= i < |left|
      ensures !OccursAt(s, ", ", i)
    {
      assert s[i + 1] != ' ';
      assert s[i..i + 2][1] == s[i + 1];
    }
    SplitFirstAt(left, ", ", c);
    SplitNone(c, ", ");
    assert [left] + [c] == [left, c];
    ContainsMiddle(left, ", ", c);
    assert s[0] == a[0] && s[|s| - 1] == c[|c| - 1];
    StripStripped(s);
    ParseCut(s, left, c);
    assert left[0] == a[0] && left[|left| - 1] == b[|b| - 1];
    StripStripped(left);
    WordNormalised(c);
  }

  /** A word holds no whitespace character. */
  lemma WordNoSpace(w: string)
    requires IsWord(w)
    ensures forall i :: 0 <= i < |w| ==> !IsSpace(w[i])
  {
  }

  /** Whitespace holds none of the separators but the space. */
  lemma SpaceChars(w: string)
    requires AllSpace(w)
    ensures ',' !in w && '-' !in w
  {
    assert !IsSpace(',') && !IsSpace('-');
  }

  /**
   * Two words with a run of whitespace between them that holds at least
   * one space are read back, upper-cased: `split()` collapses the run.
   */
  lemma ParseSpaces(a: string, w: string, b: string)
    requires IsWord(a) && IsWord(b)
    requires w != [] && AllSpace(w) && ' ' in w
    ensures ParseMove(a + w + b) == Some((Upper(a), Upper(b)))
  {
    var s := a + w + b;
    WordChars(a);
    WordChars(b);
    SpaceChars(w);
    JoinedStripped(a, w, b);
    NotContains(s, ", ", 0);
    NotContains(s, ",", 0);
    NotContains(s, "-", 0);
    var k :| 0 <= k < |w| && w[k] == ' ';
    assert w == w[..k] + " " + w[k + 1..];
    assert s == (a + w[..k]) + " " + (w[k + 1..] + b);
    ContainsMiddle(a + w[..k], " ", w[k + 1..] + b);
    SplitAcrossRun(a, w, b);
    ParseTwoPieces(s, a, b);
  }

  /**
   * Whitespace other than the space character is no separator: two words
   * with only tabs or line breaks between them are not a move.
   */
  lemma ParseNoSpaceCharacter(a: string, w: string, b: string)
    requires IsWord(a) && IsWord(b)
    requires AllSpace(w) && ' ' !in w
    ensures ParseMove(a + w + b) == None
  {
    var s := a + w + b;
    WordChars(a);
    WordChars(b);
    SpaceChars(w);
    JoinedStripped(a, w, b);
    NotContains(s, ",", 0);
    NotContains(s, "-", 0);
    NotContains(s, " ", 0);
  }

  /** Text around a dash, without a comma, is cut at the dash. */
  lemma PiecesDashOnly(left: string, right: string)
    requires ',' !in left && ',' !in right && '-' !in left && '-' !in right
    ensures Pieces(left + "-" + right) == Some([left, right])
  {
    var s := left + "-" + right;
    NotContains(s, ", ", 0);
    NotContains(s, ",", 0);
    ContainsMiddle(left, "-", right);
    SplitFirst(left, "-", right);
    SplitNone(right, "-");
    assert [left] + [right] == [left, right];
  }

  /** `strip().upper()` of a word with whitespace on either side is the word's upper case. */
  lemma PaddedNormalised(w1: string, a: string, w2: string)
    requires IsWord(a) && AllSpace(w1) && AllSpace(w2)
    ensures Normalise(w1 + a + w2) == Upper(a)
  {
    WordChars(a);
    StripPadded(w1, a, w2);
  }

  /**
   * The dash is looked for before the space: two words around a dash with
   * whitespace on either side are read back, upper-cased, although
   * `split()` would have cut the same text into three pieces.
   */
  lemma ParseDashPadded(a: string, w1: string, w2: string, b: string)
    requires IsWord(a) && IsWord(b) && AllSpace(w1) && AllSpace(w2)
    ensures ParseMove(a + w1 + "-" + w2 + b) == Some((Upper(a), Upper(b)))
  {
    var s := a + w1 + "-" + w2 + b;
    var left := a + w1;
    var right := w2 + b;
    assert s == left + "-" + right;
    assert s == a + (w1 + "-" + w2) + b;
    JoinedStripped(a, w1 + "-" + w2, b);
    WordChars(a);
    WordChars(b);
    SpaceChars(w1);
    SpaceChars(w2);
    PiecesDashOnly(left, right);
    PaddedNormalised([], a, w1);
    assert [] + a + w1 == left;
    PaddedNormalised(w2, b, []);
    assert w2 + b + [] == right;
  }

  /**
   * Stripped text `s` is `p`, then `sep`, then `q`, cut where `parse_move`
   * cuts it: at ", " when `s` holds one, else at ",", else at "-", each
   * separator occurring in neither piece; otherwise at a run of whitespace
   * holding a space, between two whitespace-free pieces.
   */
  predicate FirstCut(s: string, p: string, sep: string, q: string)
  {
    && s == p + sep + q
    && if Contains(s, ", ") then sep == ", " && !Contains(p, ", ") && !Contains(q, ", ")
       else if Contains(s, ",") then sep == "," && ',' !in p && ',' !in q
       else if Contains(s, "-") then sep == "-" && '-' !in p && '-' !in q
       else sep != [] && AllSpace(sep) && ' ' in sep && p != [] && q != [] && NoSpace(p) && NoSpace(q)
  }

  /** Text that `split(sep)` cuts into two pieces is those pieces joined by `sep`. */
  lemma SplitTwoPieces(s: string, sep: string)
    requires sep != [] && |Split(s, sep)| == 2
    ensures s == Split(s, sep)[0] + sep + Split(s, sep)[1]
  {
    SplitJoin(s, sep);
    var parts := Split(s, sep);
    assert Join(parts[1..], sep) == parts[1];
  }

  /** Stripped text that `split()` cuts into two words is those words with whitespace between them. */
  lemma SplitWhitespaceStripped(s: string)
    requires IsStripped(s) && |SplitWhitespace(s)| == 2
    ensures exists w :: w != [] && AllSpace(w) && s == SplitWhitespace(s)[0] + w + SplitWhitespace(s)[1]
  {
    var p := SplitWhitespace(s)[0];
    var q := SplitWhitespace(s)[1];
    SplitWhitespaceTwo(s);
    var w1, w2, w3 :| AllSpace(w1) && AllSpace(w2) && AllSpace(w3) && w2 != [] && s == w1 + (p + w2 + q) + w3;
    var m := p + w2 + q;
    assert m[0] == p[0] && m[|m| - 1] == q[|q| - 1];
    StrippedUnpadded(s, w1, m, w3);
  }

  /**
   * Every move read comes from the stripped input cut once, at the
   * separator `parse_move` tries first among those present: the two names
   * are the pieces on either side, stripped and upper-cased.
   */
  lemma ParseMoveFrom(input: string)
    requires ParseMove(input).Some?
    ensures exists p, sep, q ::
      && FirstCut(Strip(input), p, sep, q)
      && ParseMove(input).value == (Normalise(p), Normalise(q))
  {
    var s := Strip(input);
    var parts := Pieces(s).value;
    if Contains(s, ", ") {
      SplitTwoPieces(s, ", ");
      SplitPiecesFree(s, ", ");
      assert FirstCut(s, parts[0], ", ", parts[1]);
    } else if Contains(s, ",") {
      SplitTwoPieces(s, ",");
      SplitPiecesFree(s, ",");
      NotContainsChar(parts[0], ',');
      NotContainsChar(parts[1], ',');
      assert FirstCut(s, parts[0], ",", parts[1]);
    } else if Contains(s, "-") {
      SplitTwoPieces(s, "-");
      SplitPiecesFree(s, "-");
      NotContainsChar(parts[0], '-');
      NotContainsChar(parts[1], '-');
      assert FirstCut(s, parts[0], "-", parts[1]);
    } else {
      SplitWhitespaceStripped(s);
      var w :| w != [] && AllSpace(w) && s == parts[0] + w + parts[1];
      assert NoSpace(parts[0]) && NoSpace(parts[1]);
      SpaceInRun(s, parts[0], w, parts[1]);
      assert FirstCut(s, parts[0], w, parts[1]);
    }
  }

  /** A space in text cut into two whitespace-free pieces lies in the run between them. */
  lemma SpaceInRun(s: string, p: string, w: string, q: string)
    requires s == p + w + q && NoSpace(p) && NoSpace(q) && Contains(s, " ")
    ensures ' ' in w
  {
    ContainsAt(s, " ");
    var i :| OccursAt(s, " ", i);
    assert s[i..i + 1] == [s[i]];
    assert IsSpace(s[i]);
    assert |p| <= i < |p| + |w|;
    assert w[i - |p|] == s[i];
  }

  /** Text without ", " has no comma followed by a space. */
  lemma NoCommaSpace(p: string)
    requires !Contains(p, ", ")
    ensures forall i :: 0 <= i < |p| - 1 ==> !(p[i] == ',' && p[i + 1] == ' ')
  {
    ContainsAt(p, ", ");
    forall i | 0 <= i < |p| - 1
      ensures !(p[i] == ',' && p[i + 1] == ' ')
    {
      assert !OccursAt(p, ", ", i);
      assert p[i..i + 2] == [p[i], p[i + 1]];
    }
  }

  /** Two cuts of the same text at a separator of the same length, after pieces of the same length, are one cut. */
  lemma SameCut(s: string, p1: string, sep1: string, q1: string, p2: string, sep2: string, q2: string)
    requires s == p1 + sep1 + q1 && s == p2 + sep2 + q2
    requires |p1| == |p2| && |sep1| == |sep2|
    ensures p1 == p2 && sep1 == sep2 && q1 == q2
  {
    assert p1 == s[..|p1|] && p2 == s[..|p2|];
    assert sep1 == s[|p1|..|p1| + |sep1|] && sep2 == s[|p2|..|p2| + |sep2|];
    assert q1 == s[|p1| + |sep1|..] && q2 == s[|p2| + |sep2|..];
  }

  /** Two cuts at ", " whose left pieces hold no ", " are one cut. */
  lemma CommaSpaceCutUnique(s: string, p1: string, q1: string, p2: string, q2: string)
    requires s == p1 + ", " + q1 && s == p2 + ", " + q2
    requires !Contains(p1, ", ") && !Contains(p2, ", ")
    ensures p1 == p2 && q1 == q2
  {
    NoCommaSpace(p1);
    NoCommaSpace(p2);
    assert forall k :: 0 <= k < |p1| ==> s[k] == p1[k];
    assert forall k :: 0 <= k < |p2| ==> s[k] == p2[k];
    assert s[|p1|] == ',' && s[|p1| + 1] == ' ' && s[|p2|] == ',' && s[|p2| + 1] == ' ';
    assert |p1| == |p2|;
    SameCut(s, p1, ", ", q1, p2, ", ", q2);
  }

  /** Two cuts at the character `c` whose left pieces do not hold `c` are one cut. */
  lemma CharCutUnique(s: string, c: char, p1: string, q1: string, p2: string, q2: string)
    requires s == p1 + [c] + q1 && s == p2 + [c] + q2
    requires c !in p1 && c !in p2
    ensures p1 == p2 && q1 == q2
  {
    assert forall k :: 0 <= k < |p1| ==> s[k] == p1[k];
    assert forall k :: 0 <= k < |p2| ==> s[k] == p2[k];
    assert s[|p1|] == c && s[|p2|] == c;
    assert |p1| == |p2|;
    SameCut(s, p1, [c], q1, p2, [c], q2);
  }

  /** Two cuts at a whitespace run between two whitespace-free pieces are one cut. */
  lemma RunCutUnique(s: string, p1: string, w1: string, q1: string, p2: string, w2: string, q2: string)
    requires s == p1 + w1 + q1 && s == p2 + w2 + q2
    requires w1 != [] && AllSpace(w1) && q1 != [] && NoSpace(p1) && NoSpace(q1)
    requires w2 != [] && AllSpace(w2) && q2 != [] && NoSpace(p2) && NoSpace(q2)
    ensures p1 == p2 && w1 == w2 && q1 == q2
  {
    assert forall k :: 0 <= k < |p1| ==> s[k] == p1[k];
    assert forall k :: 0 <= k < |p2| ==> s[k] == p2[k];
    assert IsSpace(s[|p1|]) && IsSpace(s[|p2|]);
    assert |p1| == |p2|;
    assert forall k :: 0 <= k < |w1| ==> s[|p1| + k] == w1[k];
    assert forall k :: 0 <= k < |w2| ==> s[|p2| + k] == w2[k];
    assert !IsSpace(s[|p1| + |w1|]) && !IsSpace(s[|p2| + |w2|]);
    assert |w1| == |w2|;
    SameCut(s, p1, w1, q1, p2, w2, q2);
  }

  /**
   * The cut `parse_move` makes is unique, so the two names a move is read
   * as are fixed by the input: "a,b-c" can only be cut at the comma.
   */
  lemma FirstCutUnique(s: string, p1: string, sep1: string, q1: string, p2: string, sep2: string, q2: string)
    requires FirstCut(s, p1, sep1, q1) && FirstCut(s, p2, sep2, q2)
    ensures p1 == p2 && sep1 == sep2 && q1 == q2
  {
    if Contains(s, ", ") {
      CommaSpaceCutUnique(s, p1, q1, p2, q2);
    } else if Contains(s, ",") {
      CharCutUnique(s, ',', p1, q1, p2, q2);
    } else if Contains(s, "-") {
      CharCutUnique(s, '-', p1, q1, p2, q2);
    } else {
      RunCutUnique(s, p1, sep1, q1, p2, sep2, q2);
    }
  }

  /** Three words with spaces between them are not a move. */
  lemma ParseThreeWords(a: string, b: string, c: string)
    requires IsWord(a) && IsWord(b) && IsWord(c)
    ensures ParseMove(a + " " + b + " " + c) == None
  {
    var rest := " " + (b + " " + c);
    var s := a + rest;
    assert a + " " + b + " " + c == s;
    WordChars(a);
    WordChars(b);
    WordChars(c);
    assert s[0] == a[0] && s[|s| - 1] == c[|c| - 1];
    StripStripped(s);
    NotContains(s, ", ", 0);
    NotContains(s, ",", 0);
    NotContains(s, "-", 0);
    ContainsMiddle(a, " ", b + " " + c);
    SplitWhitespaceWord(a, rest);
    SplitWhitespaceSpace(b + " " + c);
    SplitTwoWords(b, c);
  }

  /** A word followed by a dash gives the word and an empty destination: no square is checked. */
  lemma ParseTrailingDash(a: string)
    requires IsWord(a)
    ensures ParseMove(a + "-") == Some((Upper(a), ""))
  {
    var s := a + "-";
    WordChars(a);
    assert s[0] == a[0];
    StripStripped(s);
    NotContains(s, ", ", 0);
    NotContains(s, ",", 0);
    ContainsMiddle(a, "-", "");
    assert a + "-" + "" == s;
    SplitFirst(a, "-", "");
    assert Split("", "-") == [""];
    WordNormalised(a);
    assert Strip("") == "";
  }

  /** "E2", "E4", "E6" and their lower-case forms are words. */
  lemma SquareWords()
    ensures IsWord("E2") && IsWord("E4") && IsWord("E6") && IsWord("e2") && IsWord("e4")
    ensures Upper("E2") == "E2" && Upper("E4") == "E4" && Upper("e2") == "E2" && Upper("e4") == "E4"
  {
  }

  /** "E2 E4", "E2-E4", "E2,E4" and "E2, E4" all give ("E2", "E4"). */
  lemma ParseSeparatorExamples()
    ensures ParseMove("E2 E4") == Some(("E2", "E4"))
    ensures ParseMove("E2-E4") == Some(("E2", "E4"))
    ensures ParseMove("E2,E4") == Some(("E2", "E4"))
    ensures ParseMove("E2, E4") == Some(("E2", "E4"))
  {
    SquareWords();
    assert "E2" + " " + "E4" == "E2 E4";
    assert "E2" + "-" + "E4" == "E2-E4";
    assert "E2" + "," + "E4" == "E2,E4";
    assert "E2" + ", " + "E4" == "E2, E4";
    ParseSpace("E2", "E4");
    ParseDash("E2", "E4");
    ParseComma("E2", "E4");
    ParseCommaSpace("E2", "E4");
  }

  /** Lower case is raised: "e2 e4" gives ("E2", "E4"). */
  lemma ParseLowerCaseExample()
    ensures ParseMove("e2 e4") == Some(("E2", "E4"))
  {
    SquareWords();
    assert "e2" + " " + "e4" == "e2 e4";
    ParseSpace("e2", "e4");
  }

  /** A run of spaces counts as one: "E2   E4" gives ("E2", "E4"). */
  lemma ParseSpacesExample()
    ensures ParseMove("E2   E4") == Some(("E2", "E4"))
  {
    SquareWords();
    assert AllSpace("   ") && "   "[0] == ' ';
    assert "E2" + "   " + "E4" == "E2   E4";
    ParseSpaces("E2", "   ", "E4");
  }

  /** The dash wins over the spaces around it: "E2 - E4" gives ("E2", "E4"). */
  lemma ParseDashPaddedExample()
    ensures ParseMove("E2 - E4") == Some(("E2", "E4"))
  {
    SquareWords();
    assert AllSpace(" ");
    assert "E2" + " " + "-" + " " + "E4" == "E2 - E4";
    ParseDashPadded("E2", " ", " ", "E4");
  }

  /** A tab alone is no separator: "E2\tE4" is not a move. */
  lemma ParseTabExample()
    ensures ParseMove("E2\tE4") == None
  {
    SquareWords();
    assert AllSpace("\t") && ' ' !in "\t";
    assert "E2" + "\t" + "E4" == "E2\tE4";
    ParseNoSpaceCharacter("E2", "\t", "E4");
  }

  /** "" and "E2" are not moves: no separator is found. */
  lemma ParseNoSeparatorExamples()
    ensures ParseMove("") == None
    ensures ParseMove("E2") == None
  {
    assert Strip("") == "";
    SquareWords();
    WordChars("E2");
    NotContains("E2", ",", 0);
    NotContains("E2", "-", 0);
    NotContains("E2", " ", 0);
    StripStripped("E2");
  }

  /** "E2 E4 E6" is not a move: it cuts into three pieces. */
  lemma ParseThreeWordsExample()
    ensures ParseMove("E2 E4 E6") == None
  {
    SquareWords();
    ParseThreeWords("E2", "E4", "E6");
    assert "E2" + " " + "E4" + " " + "E6" == "E2 E4 E6";
  }

  /** No square is checked: "E2-" gives ("E2", ""). */
  lemma ParseMissingDestinationExample()
    ensures ParseMove("E2-") == Some(("E2", ""))
  {
    SquareWords();
    assert "E2" + "-" == "E2-";
    ParseTrailingDash("E2");
  }
}
