/**
 * String helpers the strategies borrow from their libraries: blank tests and
 * defaults, null fixing, ASCII case folding, and splitting on a separator with
 * the trailing-empty-piece rule of Java's `String.split`.
 */
module Text {
  import opened Wrappers

  /** Java's `Character.isWhitespace`: the ASCII controls and the Unicode space separators other than no-break spaces. */
  predicate IsWhitespace(c: char) {
    || c == ' ' || c == '\t' || c == '\n' || c == '\U{000B}' || c == '\U{000C}' || c == '\r'
    || ('\U{001C}' <= c <= '\U{001F}')
    || c == '\U{1680}' || ('\U{2000}' <= c <= '\U{2006}') || ('\U{2008}' <= c <= '\U{200A}')
    || c == '\U{2028}' || c == '\U{2029}' || c == '\U{205F}' || c == '\U{3000}'
  }

  /** `StringUtils.isBlank` of a present string: empty or whitespace only. */
  predicate IsBlank(s: string) {
    forall i :: 0 <= i < |s| ==> IsWhitespace(s[i])
  }

  /** `StringUtils.defaultIfBlank`: an absent or blank string is replaced by `default`. */
  function DefaultIfBlank(s: Option<string>, default: string): (r: string)
    ensures s.None? || IsBlank(s.value) ==> r == default
    ensures s.Some? && !IsBlank(s.value) ==> r == s.value
  {
    if s.None? || IsBlank(s.value) then default else s.value
  }

  /** `Util.fixNull` for strings: a missing string is the empty string. */
  function FixNull(s: Option<string>): string {
    s.GetOr("")
  }

  /** ASCII lower-casing, the case folding of a case-insensitive pattern without Unicode case. */
  function Fold(c: char): (f: char)
    ensures 'A' <= c <= 'Z' ==> 'a' <= f <= 'z'
    ensures !('A' <= c <= 'Z') ==> f == c
  {
    if 'A' <= c <= 'Z' then (c as int + 32) as char else c
  }

  /** One character matched against another, folding case unless `caseSensitive`. */
  predicate CharMatch(caseSensitive: bool, p: char, c: char) {
    if caseSensitive then p == c else Fold(p) == Fold(c)
  }

  /** Two strings of the same length whose characters match pairwise. */
  predicate CharsMatch(caseSensitive: bool, p: string, s: string) {
    |p| == |s| && forall i :: 0 <= i < |p| ==> CharMatch(caseSensitive, p[i], s[i])
  }

  /** Case-insensitive string equality over the ASCII fold. */
  predicate EqualsIgnoreCase(a: string, b: string) {
    CharsMatch(false, a, b)
  }

  lemma CaseSensitiveCharsMatchIsEquality(p: string, s: string)
    ensures CharsMatch(true, p, s) <==> p == s
  {
    if CharsMatch(true, p, s) {
      assert forall i :: 0 <= i < |p| ==> p[i] == s[i];
    }
  }

  /**
   * Every piece of `s` between occurrences of `sep`, empty pieces included;
   * there is always one more piece than there are separators.
   */
  function SplitAll(s: string, sep: char): (pieces: seq<string>)
    ensures |pieces| >= 1
    ensures forall k :: 0 <= k < |pieces| ==> sep !in pieces[k]
    ensures Join(pieces, sep) == s
  {
    if s == [] then [[]]
    else
      var rest := SplitAll(s[1..], sep);
      if s[0] == sep then [[]] + rest
      else [[s[0]] + rest[0]] + rest[1..]
  }

  /** The pieces joined back together, with `sep` between consecutive pieces. */
  function Join(pieces: seq<string>, sep: char): string {
    if |pieces| == 0 then []
    else if |pieces| == 1 then pieces[0]
    else pieces[0] + [sep] + Join(pieces[1..], sep)
  }

  /** The longest prefix of `pieces` that does not end in an empty string. */
  function DropTrailingEmpty(pieces: seq<string>): (r: seq<string>)
    ensures |r| <= |pieces| && r == pieces[..|r|]
    ensures |r| > 0 ==> r[|r| - 1] != []
    ensures forall k :: |r| <= k < |pieces| ==> pieces[k] == []
  {
    if |pieces| == 0 then []
    else if pieces[|pieces| - 1] == [] then DropTrailingEmpty(pieces[..|pieces| - 1])
    else pieces
  }

  /**
   * `s.split(sep)` for a single literal separator character: with no separator in
   * `s` the whole string is the one piece; otherwise all pieces with trailing empty
   * pieces removed (so the result may be empty).
   */
  function JavaSplit(s: string, sep: char): (pieces: seq<string>)
    ensures sep !in s ==> pieces == [s]
    ensures forall k :: 0 <= k < |pieces| ==> sep !in pieces[k]
    ensures sep in s && |pieces| > 0 ==> pieces[|pieces| - 1] != []
  {
    if sep !in s then [s]
    else
      DropTrailingEmpty(SplitAll(s, sep))
  }

  /** Joining the pieces gives the text back without its trailing separators. */
  lemma JavaSplitJoin(s: string, sep: char)
    ensures Join(JavaSplit(s, sep), sep) == TrimRight(s, sep)
  {
    if sep in s {
      JoinDropTrailing(SplitAll(s, sep), sep);
    }
  }

  /** `s` without its leading `c` characters. */
  function TrimLeft(s: string, c: char): string {
    if s != [] && s[0] == c then TrimLeft(s[1..], c) else s
  }

  /** `s` without its trailing `c` characters. */
  function TrimRight(s: string, c: char): string {
    if s != [] && s[|s| - 1] == c then TrimRight(s[..|s| - 1], c) else s
  }

  /** A separator in front survives right-trimming unless nothing else does. */
  lemma {:induction false} TrimRightCons(s: string, sep: char)
    ensures TrimRight([sep] + s, sep) == if TrimRight(s, sep) == [] then [] else [sep] + TrimRight(s, sep)
    decreases |s|
  {
    var t := [sep] + s;
    if s == [] {
      assert t[..0] == [];
    } else if s[|s| - 1] == sep {
      assert t[..|t| - 1] == [sep] + s[..|s| - 1];
      TrimRightCons(s[..|s| - 1], sep);
    } else {
      assert t[|t| - 1] == s[|s| - 1];
    }
  }

  /** Separators at either end of the text are removed by trimming both ends. */
  lemma EndSeparatorsAreTrimmed(s: string, sep: char)
    ensures TrimLeft(TrimRight([sep] + s, sep), sep) == TrimLeft(TrimRight(s, sep), sep)
    ensures TrimLeft(TrimRight(s + [sep], sep), sep) == TrimLeft(TrimRight(s, sep), sep)
  {
    TrimRightCons(s, sep);
    if TrimRight(s, sep) != [] {
      assert ([sep] + TrimRight(s, sep))[1..] == TrimRight(s, sep);
    }
    assert (s + [sep])[..|s|] == s;
  }

  /** How many empty strings `pieces` starts with. */
  function LeadingEmpty(pieces: seq<string>): (n: nat)
    ensures n <= |pieces|
    ensures n < |pieces| ==> pieces[n] != []
  {
    if |pieces| == 0 then 0
    else if pieces[0] == [] then 1 + LeadingEmpty(pieces[1..])
    else 0
  }

  /** The longest suffix of `pieces` that does not start with an empty string. */
  function DropLeadingEmpty(pieces: seq<string>): seq<string> {
    pieces[LeadingEmpty(pieces)..]
  }

  /** Appending one piece appends a separator and that piece. */
  lemma {:induction false} JoinSnoc(pieces: seq<string>, p: string, sep: char)
    requires |pieces| >= 1
    ensures Join(pieces + [p], sep) == Join(pieces, sep) + [sep] + p
    decreases |pieces|
  {
    if |pieces| == 1 {
      assert pieces + [p] == [pieces[0], p];
      assert (pieces + [p])[1..] == [p];
    } else {
      assert (pieces + [p])[1..] == pieces[1..] + [p];
      JoinSnoc(pieces[1..], p, sep);
    }
  }

  /** The joined text starts with the first piece, followed by a separator and the rest when there is more. */
  lemma JoinFirstPiece(pieces: seq<string>, sep: char)
    requires |pieces| >= 1
    ensures var j := Join(pieces, sep);
      && |pieces[0]| <= |j| && j[..|pieces[0]|] == pieces[0]
      && (|pieces| == 1 ==> j == pieces[0])
      && (|pieces| > 1 ==> |pieces[0]| < |j| && j[|pieces[0]|] == sep && j[|pieces[0]| + 1..] == Join(pieces[1..], sep))
  {
    if |pieces| > 1 {
      var j := Join(pieces, sep);
      assert j == pieces[0] + [sep] + Join(pieces[1..], sep);
      assert j[..|pieces[0]|] == pieces[0];
      assert j[|pieces[0]| + 1..] == Join(pieces[1..], sep);
    }
  }

  /** The joined text ends with the last piece. */
  lemma {:induction false} JoinLastPiece(pieces: seq<string>, sep: char)
    requires |pieces| >= 1
    ensures var j := Join(pieces, sep); var last := pieces[|pieces| - 1];
      |last| <= |j| && j[|j| - |last|..] == last
    decreases |pieces|
  {
    if |pieces| > 1 {
      JoinLastPiece(pieces[1..], sep);
      assert Join(pieces, sep) == pieces[0] + [sep] + Join(pieces[1..], sep);
    }
  }

  /** Dropping the trailing empty pieces drops the trailing separators of the joined text. */
  lemma {:induction false} JoinDropTrailing(pieces: seq<string>, sep: char)
    requires forall k :: 0 <= k < |pieces| ==> sep !in pieces[k]
    ensures Join(DropTrailingEmpty(pieces), sep) == TrimRight(Join(pieces, sep), sep)
    decreases |pieces|
  {
    if |pieces| == 0 {
    } else if pieces[|pieces| - 1] == [] {
      var init := pieces[..|pieces| - 1];
      if |init| == 0 {
        assert pieces == [[]];
        assert DropTrailingEmpty(init) == [];
      } else {
        assert pieces == init + [[]];
        JoinSnoc(init, [], sep);
        var j := Join(init, sep) + [sep];
        assert Join(pieces, sep) == j by { assert Join(init, sep) + [sep] + [] == j; }
        assert j[|j| - 1] == sep && j[..|j| - 1] == Join(init, sep);
        assert TrimRight(j, sep) == TrimRight(Join(init, sep), sep);
        JoinDropTrailing(init, sep);
      }
    } else {
      var j := Join(pieces, sep);
      var last := pieces[|pieces| - 1];
      JoinLastPiece(pieces, sep);
      assert j[|j| - 1] == last[|last| - 1];
      assert sep !in last;
    }
  }

  /** Dropping the leading empty pieces drops the leading separators of the joined text. */
  lemma {:induction false} JoinDropLeading(pieces: seq<string>, sep: char)
    requires forall k :: 0 <= k < |pieces| ==> sep !in pieces[k]
    ensures Join(DropLeadingEmpty(pieces), sep) == TrimLeft(Join(pieces, sep), sep)
    decreases |pieces|
  {
    if |pieces| == 0 {
    } else if pieces[0] == [] {
      assert DropLeadingEmpty(pieces) == DropLeadingEmpty(pieces[1..]);
      if |pieces| == 1 {
        assert DropLeadingEmpty(pieces[1..]) == [];
      } else {
        var j := Join(pieces, sep);
        assert j != [] && j[0] == sep && j[1..] == Join(pieces[1..], sep) by {
          assert j == [sep] + Join(pieces[1..], sep);
        }
        assert TrimLeft(j, sep) == TrimLeft(j[1..], sep);
        JoinDropLeading(pieces[1..], sep);
      }
    } else {
      assert DropLeadingEmpty(pieces) == pieces;
      var j := Join(pieces, sep);
      assert j != [] && j[0] != sep by {
        JoinFirstPiece(pieces, sep);
        assert j[0] == pieces[0][0];
        assert sep !in pieces[0];
      }
    }
  }

  /** Pieces free of the separator are determined by their joined text. */
  lemma {:induction false} JoinInjective(a: seq<string>, b: seq<string>, sep: char)
    requires |a| >= 1 && |b| >= 1
    requires forall k :: 0 <= k < |a| ==> sep !in a[k]
    requires forall k :: 0 <= k < |b| ==> sep !in b[k]
    requires Join(a, sep) == Join(b, sep)
    ensures a == b
    decreases |a|
  {
    JoinFirstPiece(a, sep);
    JoinFirstPiece(b, sep);
    var j := Join(a, sep);
    assert sep !in a[0] && sep !in b[0];
    assert |a[0]| == |b[0]| by {
      assert forall i :: 0 <= i < |a[0]| ==> j[i] == a[0][i] != sep;
      assert forall i :: 0 <= i < |b[0]| ==> j[i] == b[0][i] != sep;
    }
    if |a| > 1 && |b| > 1 {
      JoinInjective(a[1..], b[1..], sep);
      assert a == [a[0]] + a[1..] && b == [b[0]] + b[1..];
    }
  }
}
