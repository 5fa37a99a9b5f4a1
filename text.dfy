/** The two string operations the data readers use on each line of a text
    file: `str.strip()` and `str.split(" ")`. */
module Text {

  /** The whitespace `str.strip()` removes (the ASCII part of Python's set). */
  predicate IsSpace(ch: char)
  {
    ch == ' ' || ch == '\t' || ch == '\n' || ch == '\r' || ch == '\U{B}' || ch == '\U{C}'
    || ch == '\U{1C}' || ch == '\U{1D}' || ch == '\U{1E}' || ch == '\U{1F}'
  }

  /** Every character of `s` is whitespace. */
  predicate AllSpace(s: string)
  {
    forall i :: 0 <= i < |s| ==> IsSpace(s[i])
  }

  /** `str.lstrip()`: drop the leading whitespace. */
  function LStrip(s: string): (r: string)
    ensures |r| <= |s| && r == s[|s| - |r|..]
    ensures AllSpace(s[..|s| - |r|])
    ensures |r| > 0 ==> !IsSpace(r[0])
  {
    if |s| > 0 && IsSpace(s[0]) then
      var r := LStrip(s[1..]);
      assert s[1..][..|s| - 1 - |r|] == s[1..|s| - |r|];
      r
    else s
  }

  /** `str.rstrip()`: drop the trailing whitespace. */
  function RStrip(s: string): (r: string)
    ensures |r| <= |s| && r == s[..|r|]
    ensures AllSpace(s[|r|..])
    ensures |r| > 0 ==> !IsSpace(r[|r| - 1])
  {
    if |s| > 0 && IsSpace(s[|s| - 1]) then
      var r := RStrip(s[..|s| - 1]);
      assert s[..|s| - 1][|r|..] == s[|r|..|s| - 1];
      r
    else s
  }

  /** `str.strip()`. */
  function Strip(s: string): string
  {
    RStrip(LStrip(s))
  }

  /** `strip()` returns a piece of `s` with only whitespace around it, and
      that does not itself start or end with whitespace. */
  lemma StripIsTrimmedPiece(s: string)
    ensures exists i :: (0 <= i <= |s| - |Strip(s)| && Strip(s) == s[i..i + |Strip(s)|]
                         && AllSpace(s[..i]) && AllSpace(s[i + |Strip(s)|..]))
    ensures |Strip(s)| > 0 ==> !IsSpace(Strip(s)[0]) && !IsSpace(Strip(s)[|Strip(s)| - 1])
  {
    var l := LStrip(s);
    var r := Strip(s);
    var i := |s| - |l|;
    assert r == l[..|r|] == s[i..i + |r|];
    assert s[i + |r|..] == l[|r|..];
  }

  /** A string of whitespace only strips to the empty string (a blank line). */
  lemma {:induction false} StripBlank(s: string)
    requires AllSpace(s)
    ensures LStrip(s) == [] && Strip(s) == []
    decreases |s|
  {
    if |s| > 0 {
      assert IsSpace(s[0]);
      StripBlank(s[1..]);
    }
  }

  /** `s.split(sep)` with an explicit separator: the pieces between the
      occurrences of `sep`, empty pieces included, so `n` separators give
      `n + 1` pieces. */
  function Split(s: string, sep: char): (pieces: seq<string>)
    ensures |pieces| > 0
    decreases |s|
  {
    if |s| == 0 then [""]
    else
      var rest := Split(s[..|s| - 1], sep);
      if s[|s| - 1] == sep then rest + [""]
      else rest[..|rest| - 1] + [rest[|rest| - 1] + [s[|s| - 1]]]
  }

  /** `sep.join(pieces)`. */
  function Join(pieces: seq<string>, sep: char): string
    requires |pieces| > 0
  {
    if |pieces| == 1 then pieces[0]
    else Join(pieces[..|pieces| - 1], sep) + [sep] + pieces[|pieces| - 1]
  }

  /** Joining the pieces back with the separator gives the string again. */
  lemma {:induction false} SplitJoin(s: string, sep: char)
    ensures Join(Split(s, sep), sep) == s
    decreases |s|
  {
    if |s| > 0 {
      var front := s[..|s| - 1];
      var last := s[|s| - 1];
      SplitJoin(front, sep);
      if last == sep {
        JoinNewPiece(Split(front, sep), sep);
      } else {
        JoinExtendLast(Split(front, sep), sep, last);
      }
      assert s == front + [last];
    }
  }

  /** A new empty last piece adds one separator. */
  lemma JoinNewPiece(pieces: seq<string>, sep: char)
    requires |pieces| > 0
    ensures Join(pieces + [""], sep) == Join(pieces, sep) + [sep]
  {
    assert (pieces + [""])[..|pieces|] == pieces;
  }

  /** A character added to the last piece is added to the joined string. */
  lemma JoinExtendLast(pieces: seq<string>, sep: char, c: char)
    requires |pieces| > 0
    ensures Join(pieces[..|pieces| - 1] + [pieces[|pieces| - 1] + [c]], sep) == Join(pieces, sep) + [c]
  {
    var n := |pieces| - 1;
    var longer := pieces[..n] + [pieces[n] + [c]];
    assert longer[..n] == pieces[..n];
    if n > 0 {
      assert Join(longer, sep) == Join(pieces[..n], sep) + [sep] + (pieces[n] + [c]);
      assert Join(pieces, sep) == Join(pieces[..n], sep) + [sep] + pieces[n];
    }
  }

  /** No piece contains the separator. */
  lemma {:induction false} SplitPiecesFree(s: string, sep: char)
    ensures forall k :: 0 <= k < |Split(s, sep)| ==> sep !in Split(s, sep)[k]
    decreases |s|
  {
    if |s| > 0 {
      SplitPiecesFree(s[..|s| - 1], sep);
    }
  }

  /** The number of occurrences of `ch` in `s`. */
  function Count(s: string, ch: char): nat
  {
    if |s| == 0 then 0 else Count(s[..|s| - 1], ch) + (if s[|s| - 1] == ch then 1 else 0)
  }

  /** One more piece than there are separators. */
  lemma {:induction false} SplitCount(s: string, sep: char)
    ensures |Split(s, sep)| == Count(s, sep) + 1
    decreases |s|
  {
    if |s| > 0 {
      SplitCount(s[..|s| - 1], sep);
    }
  }

  /** `"a  b".split(" ")` is `["a", "", "b"]`: two spaces give an empty word. */
  lemma SplitKeepsEmptyPieces()
    ensures Split("a  b", ' ') == ["a", "", "b"]
  {
    var s0, s1, s2, s3 := "a", "a ", "a  ", "a  b";
    assert s0[..0] == "" && s1[..1] == s0 && s2[..2] == s1 && s3[..3] == s2;
    var p0 := Split(s0, ' ');
    assert p0 == [""][..0] + [[""][0] + ['a']];
    assert [""][0] + ['a'] == s0;
    var p1 := Split(s1, ' ');
    assert p1 == p0 + [""];
    var p2 := Split(s2, ' ');
    assert p2 == p1 + [""];
    var p3 := Split(s3, ' ');
    assert p3 == p2[..2] + [p2[2] + ['b']];
    assert p2[2] + ['b'] == "b";
  }
}
