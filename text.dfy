/**
 * The Python string built-ins the chess code relies on: `str.isspace`,
 * `strip()`, `upper()`, the `in` substring test, `split(sep)` and `split()`.
 * Strings are sequences of characters.
 */
module Text {

  /** The characters for which Python's `str.isspace()` holds. */
  predicate IsSpace(c: char)
  {
    || ('\U{9}' <= c <= '\U{D}')        // tab, line feed, vertical tab, form feed, carriage return
    || ('\U{1C}' <= c <= '\U{1F}')      // file, group, record and unit separators
    || c == ' ' || c == '\U{85}' || c == '\U{A0}' || c == '\U{1680}'
    || ('\U{2000}' <= c <= '\U{200A}')
    || c == '\U{2028}' || c == '\U{2029}' || c == '\U{202F}' || c == '\U{205F}' || c == '\U{3000}'
  }

  predicate AllSpace(s: string)
  {
    forall i :: 0 <= i < |s| ==> IsSpace(s[i])
  }

  /** Not a single whitespace character. */
  predicate NoSpace(s: string)
  {
    forall i :: 0 <= i < |s| ==> !IsSpace(s[i])
  }

  /** No whitespace at either end: what `strip()` leaves behind. */
  predicate IsStripped(s: string)
  {
    s == [] || (!IsSpace(s[0]) && !IsSpace(s[|s| - 1]))
  }

  /** The number of whitespace characters `s` starts with. */
  function LeadingSpace(s: string): (n: nat)
    ensures n <= |s|
    ensures forall i :: 0 <= i < n ==> IsSpace(s[i])
    ensures n < |s| ==> !IsSpace(s[n])
  {
    if s != [] && IsSpace(s[0]) then 1 + LeadingSpace(s[1..]) else 0
  }

  /** The number of whitespace characters `s` ends with. */
  function TrailingSpace(s: string): (n: nat)
    ensures n <= |s|
    ensures forall i :: |s| - n <= i < |s| ==> IsSpace(s[i])
    ensures n < |s| ==> !IsSpace(s[|s| - 1 - n])
  {
    if s != [] && IsSpace(s[|s| - 1]) then 1 + TrailingSpace(s[..|s| - 1]) else 0
  }

  /** Python's `s.strip()`: whitespace cut away at both ends. */
  function Strip(s: string): (r: string)
    ensures IsStripped(r)
  {
    var i := LeadingSpace(s);
    var j := if i == |s| then i else |s| - TrailingSpace(s);
    s[i..j]
  }

  /**
   * What `strip()` keeps is a slice of the input, and everything it cuts
   * away on either side is whitespace.
   */
  lemma StripIsSlice(s: string)
    ensures exists i, j :: 0 <= i <= j <= |s| && Strip(s) == s[i..j] && AllSpace(s[..i]) && AllSpace(s[j..])
  {
    var i := LeadingSpace(s);
    var j := if i == |s| then i else |s| - TrailingSpace(s);
    assert AllSpace(s[..i]);
    assert AllSpace(s[j..]);
  }

  /** Text with no whitespace at either end is left alone by `strip()`. */
  lemma StripStripped(s: string)
    requires IsStripped(s)
    ensures Strip(s) == s
  {
  }

  /** Stripped text that is stripped text with whitespace around it has no whitespace around it. */
  lemma StrippedUnpadded(s: string, w1: string, m: string, w3: string)
    requires IsStripped(s) && IsStripped(m) && m != [] && AllSpace(w1) && AllSpace(w3) && s == w1 + m + w3
    ensures s == m
  {
    StripStripped(s);
    StripPadded(w1, m, w3);
  }

  /** Whitespace in front of text that does not start with whitespace is all `strip()` counts there. */
  lemma {:induction false} LeadingSpaceRun(w: string, t: string)
    requires AllSpace(w) && (t == [] || !IsSpace(t[0]))
    ensures LeadingSpace(w + t) == |w|
    decreases |w|
  {
    if w != [] {
      assert (w + t)[1..] == w[1..] + t;
      LeadingSpaceRun(w[1..], t);
    } else {
      assert w + t == t;
    }
  }

  /** Whitespace after text that does not end with whitespace is all `strip()` counts there. */
  lemma {:induction false} TrailingSpaceRun(t: string, w: string)
    requires AllSpace(w) && (t == [] || !IsSpace(t[|t| - 1]))
    ensures TrailingSpace(t + w) == |w|
    decreases |w|
  {
    if w != [] {
      assert (t + w)[..|t + w| - 1] == t + w[..|w| - 1];
      TrailingSpaceRun(t, w[..|w| - 1]);
    } else {
      assert t + w == t;
    }
  }

  /** `strip()` cuts away exactly the whitespace padding around non-empty stripped text. */
  lemma StripPadded(w1: string, a: string, w2: string)
    requires AllSpace(w1) && AllSpace(w2) && a != [] && IsStripped(a)
    ensures Strip(w1 + a + w2) == a
  {
    var s := w1 + a + w2;
    assert s == w1 + (a + w2);
    LeadingSpaceRun(w1, a + w2);
    TrailingSpaceRun(w1 + a, w2);
    assert s[|w1|..|s| - |w2|] == a;
  }

  function UpperChar(c: char): (u: char)
  {
    if 'a' <= c <= 'z' then (c as int - 32) as char else c
  }

  /** Python's `s.upper()` restricted to the ASCII letters (see README). */
  function Upper(s: string): (r: string)
    ensures |r| == |s|
    ensures forall i :: 0 <= i < |s| ==> r[i] == UpperChar(s[i])
  {
    if s == [] then [] else [UpperChar(s[0])] + Upper(s[1..])
  }

  /** Python's `sub in s` for strings. */
  predicate Contains(s: string, sub: string)
    decreases |s|
  {
    |sub| <= |s| && (s[..|sub|] == sub || Contains(s[1..], sub))
  }

  /**
   * Python's `s.split(sep)` for a non-empty separator: cut at every
   * occurrence of `sep`, scanning left to right without overlaps, keeping
   * empty pieces.
   */
  function Split(s: string, sep: string): (parts: seq<string>)
    requires sep != []
    ensures |parts| >= 1
    decreases |s|
  {
    if |s| < |sep| then [s]
    else if s[..|sep|] == sep then [""] + Split(s[|sep|..], sep)
    else
      var rest := Split(s[1..], sep);
      [[s[0]] + rest[0]] + rest[1..]
  }

  /** The first whitespace-free word of `s`, which must not start with whitespace. */
  function Word(s: string): (w: string)
    ensures |w| <= |s| && w == s[..|w|]
    ensures forall i :: 0 <= i < |w| ==> !IsSpace(w[i])
    ensures |w| < |s| ==> IsSpace(s[|w|])
  {
    if s == [] || IsSpace(s[0]) then [] else [s[0]] + Word(s[1..])
  }

  /** Python's `s.split()`: the maximal runs of non-whitespace characters, in order. */
  function SplitWhitespace(s: string): (words: seq<string>)
    ensures forall k :: 0 <= k < |words| ==> words[k] != []
    ensures forall k, i :: 0 <= k < |words| && 0 <= i < |words[k]| ==> !IsSpace(words[k][i])
    decreases |s|
  {
    var t := s[LeadingSpace(s)..];
    if t == [] then []
    else
      var w := Word(t);
      [w] + SplitWhitespace(t[|w|..])
  }

  // ---------------------------------------------------------------- facts used by the move parser

  /** `sub` occurs in `s` starting at position `i`. */
  predicate OccursAt(s: string, sub: string, i: int)
  {
    0 <= i <= |s| - |sub| && s[i..i + |sub|] == sub
  }

  /** `sub in s` holds exactly when `sub` occurs at some position of `s`. */
  lemma {:induction false} ContainsAt(s: string, sub: string)
    ensures Contains(s, sub) <==> exists i :: OccursAt(s, sub, i)
    decreases |s|
  {
    if |sub| <= |s| {
      if s[..|sub|] == sub {
        assert OccursAt(s, sub, 0);
      } else {
        ContainsAt(s[1..], sub);
        if Contains(s[1..], sub) {
          var i :| OccursAt(s[1..], sub, i);
          assert OccursAt(s, sub, i + 1);
        }
        if exists i :: OccursAt(s, sub, i) {
          var i :| OccursAt(s, sub, i);
          assert i != 0;
          assert OccursAt(s[1..], sub, i - 1);
        }
      }
    } else {
      assert forall i :: !OccursAt(s, sub, i);
    }
  }

  /** Text missing one of the characters of `sub` does not contain `sub`. */
  lemma NotContains(s: string, sub: string, k: int)
    requires 0 <= k < |sub| && sub[k] !in s
    ensures !Contains(s, sub)
  {
    forall i
      ensures !OccursAt(s, sub, i)
    {
      if 0 <= i <= |s| - |sub| {
        assert s[i..i + |sub|][k] == s[i + k];
      }
    }
    ContainsAt(s, sub);
  }

  /** Text containing `sub` contains every piece of `sub`. */
  lemma ContainsPart(s: string, sub: string, j: int, k: int)
    requires 0 <= j <= k <= |sub| && Contains(s, sub)
    ensures Contains(s, sub[j..k])
  {
    ContainsAt(s, sub);
    var i :| OccursAt(s, sub, i);
    forall m | 0 <= m < k - j
      ensures s[i + j..i + k][m] == sub[j..k][m]
    {
      assert s[i..i + |sub|][j + m] == s[i + j + m];
    }
    assert s[i + j..i + k] == sub[j..k];
    assert OccursAt(s, sub[j..k], i + j);
    ContainsAt(s, sub[j..k]);
  }

  /** `a + sub + b` contains `sub`. */
  lemma {:induction false} ContainsMiddle(a: string, sub: string, b: string)
    ensures Contains(a + sub + b, sub)
    decreases |a|
  {
    var s := a + sub + b;
    if a == [] {
      assert s[..|sub|] == sub;
    } else if s[..|sub|] != sub {
      assert s[1..] == a[1..] + sub + b;
      ContainsMiddle(a[1..], sub, b);
    }
  }

  /** Splitting text without the separator's first character gives the text back whole. */
  lemma {:induction false} SplitNone(s: string, sep: string)
    requires sep != [] && sep[0] !in s
    ensures Split(s, sep) == [s]
    decreases |s|
  {
    if |s| >= |sep| {
      assert s[..|sep|][0] == s[0];
      SplitNone(s[1..], sep);
      assert [s[0]] + s[1..] == s;
    }
  }

  /** A leading piece without the separator's first character is split off first. */
  lemma {:induction false} SplitFirst(a: string, sep: string, rest: string)
    requires sep != [] && sep[0] !in a
    ensures Split(a + sep + rest, sep) == [a] + Split(rest, sep)
    decreases |a|
  {
    var s := a + sep + rest;
    if a == [] {
      assert s[..|sep|] == sep && s[|sep|..] == rest;
    } else {
      assert s[..|sep|][0] == a[0];
      assert s[1..] == a[1..] + sep + rest;
      SplitFirst(a[1..], sep, rest);
      assert [a[0]] + a[1..] == a;
    }
  }

  /** Text without `[c]` as a substring does not hold the character `c`. */
  lemma NotContainsChar(s: string, c: char)
    requires !Contains(s, [c])
    ensures c !in s
  {
    ContainsAt(s, [c]);
    forall i | 0 <= i < |s|
      ensures s[i] != c
    {
      assert !OccursAt(s, [c], i);
      assert s[i..i + 1] == [s[i]];
    }
  }

  /** The first piece of `split(sep)` is where the text starts. */
  lemma {:induction false} SplitFirstPrefix(s: string, sep: string)
    requires sep != []
    ensures |Split(s, sep)[0]| <= |s| && Split(s, sep)[0] == s[..|Split(s, sep)[0]|]
    decreases |s|
  {
    if |s| >= |sep| && s[..|sep|] != sep {
      SplitFirstPrefix(s[1..], sep);
      var r := Split(s[1..], sep)[0];
      assert [s[0]] + r == s[..1 + |r|];
    }
  }

  /** No piece of `split(sep)` holds `sep` again: every occurrence was cut at. */
  lemma {:induction false} SplitPiecesFree(s: string, sep: string)
    requires sep != []
    ensures forall k :: 0 <= k < |Split(s, sep)| ==> !Contains(Split(s, sep)[k], sep)
    decreases |s|
  {
    if |s| >= |sep| {
      if s[..|sep|] == sep {
        SplitPiecesFree(s[|sep|..], sep);
      } else {
        var rest := Split(s[1..], sep);
        SplitPiecesFree(s[1..], sep);
        SplitFirstPrefix(s[1..], sep);
        var x := [s[0]] + rest[0];
        assert x == s[..|x|] && x[1..] == rest[0];
        assert |sep| <= |x| ==> x[..|sep|] == s[..|sep|];
        var parts := Split(s, sep);
        assert parts == [x] + rest[1..];
        forall k | 1 <= k < |parts|
          ensures !Contains(parts[k], sep)
        {
          assert parts[k] == rest[k];
        }
      }
    }
  }

  /** A leading piece in which no occurrence of the separator starts is split off first. */
  lemma {:induction false} SplitFirstAt(a: string, sep: string, rest: string)
    requires sep != []
    requires forall i :: 0 <= i < |a| ==> !OccursAt(a + sep + rest, sep, i)
    ensures Split(a + sep + rest, sep) == [a] + Split(rest, sep)
    decreases |a|
  {
    var s := a + sep + rest;
    if a == [] {
      assert s[..|sep|] == sep && s[|sep|..] == rest;
    } else {
      assert !OccursAt(s, sep, 0) && s[0..|sep|] == s[..|sep|];
      assert s[1..] == a[1..] + sep + rest;
      forall i | 0 <= i < |a| - 1
        ensures !OccursAt(s[1..], sep, i)
      {
        assert !OccursAt(s, sep, i + 1);
        assert s[1..][i..i + |sep|] == s[i + 1..i + 1 + |sep|];
      }
      SplitFirstAt(a[1..], sep, rest);
      assert [a[0]] + a[1..] == a;
    }
  }

  /** `split(sep)` is undone by joining the pieces with `sep`. */
  function Join(parts: seq<string>, sep: string): (s: string)
    requires |parts| >= 1
    ensures |parts| == 1 ==> s == parts[0]
  {
    if |parts| == 1 then parts[0] else parts[0] + sep + Join(parts[1..], sep)
  }

  /** Growing the first piece at its front grows the joined text at its front. */
  lemma JoinGrowFirst(x: string, parts: seq<string>, sep: string)
    requires |parts| >= 1
    ensures Join([x + parts[0]] + parts[1..], sep) == x + Join(parts, sep)
  {
    var grown := [x + parts[0]] + parts[1..];
    if |parts| > 1 {
      assert grown[1..] == parts[1..];
      assert x + parts[0] + sep + Join(parts[1..], sep) == x + (parts[0] + sep + Join(parts[1..], sep));
    }
  }

  /** Joining the pieces of `split(sep)` with `sep` gives back the text. */
  lemma {:induction false} SplitJoin(s: string, sep: string)
    requires sep != []
    ensures Join(Split(s, sep), sep) == s
    decreases |s|
  {
    if |s| >= |sep| {
      if s[..|sep|] == sep {
        SplitJoin(s[|sep|..], sep);
        assert s == [] + sep + s[|sep|..];
      } else {
        SplitJoin(s[1..], sep);
        JoinGrowFirst([s[0]], Split(s[1..], sep), sep);
        assert s == [s[0]] + s[1..];
      }
    }
  }

  /** A word followed by nothing or by whitespace is read whole. */
  lemma {:induction false} WordOf(w: string, rest: string)
    requires forall i :: 0 <= i < |w| ==> !IsSpace(w[i])
    requires rest == [] || IsSpace(rest[0])
    ensures Word(w + rest) == w
    decreases |w|
  {
    if w != [] {
      assert (w + rest)[1..] == w[1..] + rest;
      WordOf(w[1..], rest);
      assert [w[0]] + w[1..] == w;
    } else {
      assert w + rest == rest;
    }
  }

  /** A leading word, followed by nothing or by whitespace, is the first of the words. */
  lemma SplitWhitespaceWord(w: string, rest: string)
    requires w != [] && forall i :: 0 <= i < |w| ==> !IsSpace(w[i])
    requires rest == [] || IsSpace(rest[0])
    ensures SplitWhitespace(w + rest) == [w] + SplitWhitespace(rest)
  {
    var s := w + rest;
    assert LeadingSpace(s) == 0 by { assert s[0] == w[0]; }
    assert s[0..] == s;
    WordOf(w, rest);
    assert s[|w|..] == rest;
  }

  /** A leading space does not change the words. */
  lemma SplitWhitespaceSpace(s: string)
    ensures SplitWhitespace(" " + s) == SplitWhitespace(s)
  {
    var t := " " + s;
    assert t[1..] == s;
    assert LeadingSpace(t) == 1 + LeadingSpace(s);
    assert t[LeadingSpace(t)..] == s[LeadingSpace(s)..];
  }

  /** A leading whitespace character does not change the words. */
  lemma SplitWhitespaceLead(c: char, s: string)
    requires IsSpace(c)
    ensures SplitWhitespace([c] + s) == SplitWhitespace(s)
  {
    var t := [c] + s;
    assert t[1..] == s;
    assert LeadingSpace(t) == 1 + LeadingSpace(s);
    assert t[LeadingSpace(t)..] == s[LeadingSpace(s)..];
  }

  /** A leading run of whitespace, however long, does not change the words. */
  lemma {:induction false} SplitWhitespaceRun(w: string, s: string)
    requires AllSpace(w)
    ensures SplitWhitespace(w + s) == SplitWhitespace(s)
    decreases |w|
  {
    if w != [] {
      assert w + s == [w[0]] + (w[1..] + s);
      SplitWhitespaceLead(w[0], w[1..] + s);
      SplitWhitespaceRun(w[1..], s);
    } else {
      assert w + s == s;
    }
  }

  /** Text made of whitespace alone has no words, and only such text. */
  lemma SplitWhitespaceNone(s: string)
    ensures SplitWhitespace(s) == [] <==> AllSpace(s)
  {
    if LeadingSpace(s) < |s| {
      assert !IsSpace(s[LeadingSpace(s)]);
    }
  }

  /** Two words with one space between them split into those two words. */
  lemma SplitTwoWords(a: string, b: string)
    requires a != [] && forall i :: 0 <= i < |a| ==> !IsSpace(a[i])
    requires b != [] && forall i :: 0 <= i < |b| ==> !IsSpace(b[i])
    ensures SplitWhitespace(a + " " + b) == [a, b]
  {
    assert AllSpace(" ");
    SplitAcrossRun(a, " ", b);
  }

  /**
   * Two words with a run of whitespace between them split into those two
   * words: `split()` collapses the run.
   */
  lemma SplitAcrossRun(a: string, w: string, b: string)
    requires a != [] && forall i :: 0 <= i < |a| ==> !IsSpace(a[i])
    requires b != [] && forall i :: 0 <= i < |b| ==> !IsSpace(b[i])
    requires w != [] && AllSpace(w)
    ensures SplitWhitespace(a + w + b) == [a, b]
  {
    var rest := w + b;
    assert a + w + b == a + rest;
    SplitWhitespaceWord(a, rest);
    SplitWhitespaceRun(w, b);
    SplitWhitespaceWord(b, []);
    assert b + [] == b;
    assert SplitWhitespace([]) == [];
  }

  lemma Halves(s: string, n: int)
    requires 0 <= n <= |s|
    ensures s == s[..n] + s[n..]
  {
  }

  lemma Regroup(s: string, w1: string, p: string, r: string, w2: string, q: string, w3: string)
    requires s == w1 + p + r && r == w2 + q + w3
    ensures s == w1 + (p + w2 + q) + w3
  {
  }

  /**
   * Text with a word in it is whitespace, the first word, and a rest that
   * is empty or starts with whitespace; the other words are the rest's.
   */
  lemma SplitWhitespaceFirst(s: string) returns (w: string, r: string)
    requires SplitWhitespace(s) != []
    ensures AllSpace(w) && s == w + SplitWhitespace(s)[0] + r
    ensures SplitWhitespace(s) == [SplitWhitespace(s)[0]] + SplitWhitespace(r)
    ensures r == [] || IsSpace(r[0])
  {
    w := s[..LeadingSpace(s)];
    var t := s[LeadingSpace(s)..];
    var p := Word(t);
    r := t[|p|..];
    Halves(s, LeadingSpace(s));
    Halves(t, |p|);
    assert s == w + p + r;
  }

  /**
   * Text that `split()` cuts into exactly two words is those two words
   * with whitespace before, between and after them, and some between.
   */
  lemma SplitWhitespaceTwo(s: string)
    requires |SplitWhitespace(s)| == 2
    ensures exists w1, w2, w3 ::
      && AllSpace(w1) && AllSpace(w2) && AllSpace(w3) && w2 != []
      && s == w1 + (SplitWhitespace(s)[0] + w2 + SplitWhitespace(s)[1]) + w3
  {
    var p := SplitWhitespace(s)[0];
    var w1, r := SplitWhitespaceFirst(s);
    var q := SplitWhitespace(r)[0];
    var w2, w3 := SplitWhitespaceFirst(r);
    SplitWhitespaceNone(w3);
    assert r != [] && IsSpace(r[0]) && !IsSpace(q[0]);
    assert w2 != [];
    Regroup(s, w1, p, r, w2, q, w3);
  }


  /** Text without lower-case ASCII letters is left alone by `upper()`. */
  lemma UpperFixed(s: string)
    requires forall i :: 0 <= i < |s| ==> !('a' <= s[i] <= 'z')
    ensures Upper(s) == s
  {
  }
}
