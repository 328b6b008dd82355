/**
 * Wildcard ("glob") patterns as the wildcard name filter uses them: `*` matches
 * any run of characters, every other character matches itself (up to ASCII case
 * when matching is case-insensitive).
 *
 * Two semantics are given. `GlobMatch` reads the pattern text directly. The
 * filter itself compiles each pattern into a regular expression made of quoted
 * literal runs and `.*`; `Tokenize` is that compilation and `PiecesMatch` the
 * meaning of the compiled expression under a whole-string match. Since the
 * expression is built without the DOTALL flag, `.*` does not cross a line
 * terminator. `CompiledMatchesGlob` proves the two semantics agree.
 */
module Glob {
  import opened Text

  /** One element of a compiled wildcard: `.*` or a quoted literal run. */
  datatype Piece = Star | Literal(text: string)

  /** The characters that `.` does not match in a regular expression without DOTALL or UNIX_LINES. */
  predicate IsLineTerminator(c: char) {
    c == '\n' || c == '\r' || c == '\U{0085}' || c == '\U{2028}' || c == '\U{2029}'
  }

  predicate NoLineTerminator(s: string) {
    forall i :: 0 <= i < |s| ==> !IsLineTerminator(s[i])
  }

  /** Whether the whole of `s` matches the wildcard pattern `p`. */
  predicate GlobMatch(caseSensitive: bool, p: string, s: string)
    decreases |p| + |s|
  {
    if p == [] then s == []
    else if p[0] == '*' then
      GlobMatch(caseSensitive, p[1..], s)
      || (s != [] && !IsLineTerminator(s[0]) && GlobMatch(caseSensitive, p, s[1..]))
    else
      s != [] && CharMatch(caseSensitive, p[0], s[0]) && GlobMatch(caseSensitive, p[1..], s[1..])
  }

  /** Literal runs are non-empty and hold no `*`; no two literal runs are adjacent. */
  predicate WellFormed(ps: seq<Piece>) {
    && (forall i :: 0 <= i < |ps| && ps[i].Literal? ==> ps[i].text != [] && '*' !in ps[i].text)
    && (forall i :: 0 <= i < |ps| - 1 && ps[i].Literal? ==> ps[i + 1].Star?)
  }

  /** The pattern text a list of pieces was compiled from. */
  function Render(ps: seq<Piece>): string {
    if ps == [] then []
    else (match ps[0] case Star => "*" case Literal(t) => t) + Render(ps[1..])
  }

  /**
   * Compile one wildcard: split it before and after every `*`, turn each `*` into
   * `.*` and each non-empty literal run into a quoted literal.
   */
  function Tokenize(w: string): (ps: seq<Piece>)
    ensures WellFormed(ps)
    ensures Render(ps) == w
    ensures w != [] && w[0] != '*' ==> |ps| > 0 && ps[0].Literal?
  {
    if w == [] then []
    else if w[0] == '*' then
      var ps := [Star] + Tokenize(w[1..]);
      assert ps[1..] == Tokenize(w[1..]);
      ps
    else
      var rest := Tokenize(w[1..]);
      if |rest| > 0 && rest[0].Literal? then
        var ps := [Literal([w[0]] + rest[0].text)] + rest[1..];
        assert ps[1..] == rest[1..];
        assert Render(rest) == rest[0].text + Render(rest[1..]);
        ps
      else
        var ps := [Literal([w[0]])] + rest;
        assert ps[1..] == rest;
        ps
  }

  /** Whole-string match of the compiled expression: the regular-expression reading of the pieces. */
  predicate PiecesMatch(caseSensitive: bool, ps: seq<Piece>, s: string)
    decreases |ps|
  {
    if ps == [] then s == []
    else match ps[0]
      case Star =>
        exists k :: 0 <= k <= |s| && NoLineTerminator(s[..k]) && PiecesMatch(caseSensitive, ps[1..], s[k..])
      case Literal(t) =>
        |t| <= |s| && CharsMatch(caseSensitive, t, s[..|t|]) && PiecesMatch(caseSensitive, ps[1..], s[|t|..])
  }

  /** A pattern that starts with a literal run must match that run character by character. */
  lemma {:induction false} LiteralPrefix(cs: bool, t: string, rest: string, s: string)
    requires '*' !in t
    ensures GlobMatch(cs, t + rest, s)
        <==> |t| <= |s| && CharsMatch(cs, t, s[..|t|]) && GlobMatch(cs, rest, s[|t|..])
  {
    if t == [] {
      assert t + rest == rest;
      assert s[0..] == s;
    } else {
      assert (t + rest)[1..] == t[1..] + rest;
      assert '*' !in t[1..];
      if s == [] {
      } else {
        LiteralPrefix(cs, t[1..], rest, s[1..]);
        if |t| <= |s| {
          assert s[1..][|t| - 1..] == s[|t|..];
          assert s[1..][..|t| - 1] == s[..|t|][1..];
          assert CharsMatch(cs, t, s[..|t|])
             <==> CharMatch(cs, t[0], s[0]) && CharsMatch(cs, t[1..], s[..|t|][1..]) by {
            if CharMatch(cs, t[0], s[0]) && CharsMatch(cs, t[1..], s[..|t|][1..]) {
              forall i | 0 <= i < |t| ensures CharMatch(cs, t[i], s[..|t|][i]) {
                if i > 0 {
                  assert t[1..][i - 1] == t[i];
                }
              }
            }
          }
        }
      }
    }
  }

  /** A leading `*` consumes some terminator-free prefix of the input, of any length. */
  lemma {:induction false} StarPrefix(cs: bool, rest: string, s: string)
    ensures GlobMatch(cs, "*" + rest, s)
        <==> exists k :: 0 <= k <= |s| && NoLineTerminator(s[..k]) && GlobMatch(cs, rest, s[k..])
  {
    var p := "*" + rest;
    assert p[1..] == rest;
    if GlobMatch(cs, p, s) {
      if GlobMatch(cs, rest, s) {
        assert s[..0] == [] && s[0..] == s;
      } else {
        StarPrefix(cs, rest, s[1..]);
        var k' :| 0 <= k' <= |s[1..]| && NoLineTerminator(s[1..][..k']) && GlobMatch(cs, rest, s[1..][k'..]);
        assert s[..k' + 1] == [s[0]] + s[1..][..k'];
        assert s[k' + 1..] == s[1..][k'..];
        assert NoLineTerminator(s[..k' + 1]) && GlobMatch(cs, rest, s[k' + 1..]);
      }
    }
    if exists k :: 0 <= k <= |s| && NoLineTerminator(s[..k]) && GlobMatch(cs, rest, s[k..]) {
      var k :| 0 <= k <= |s| && NoLineTerminator(s[..k]) && GlobMatch(cs, rest, s[k..]);
      if k == 0 {
        assert s[0..] == s;
      } else {
        assert s[..k][0] == s[0];
        assert s[1..][..k - 1] == s[..k][1..];
        assert s[1..][k - 1..] == s[k..];
        StarPrefix(cs, rest, s[1..]);
      }
    }
  }

  /** Matching the pieces is matching the pattern text they render. */
  lemma {:induction false} PiecesMatchRender(cs: bool, ps: seq<Piece>, s: string)
    requires WellFormed(ps)
    ensures PiecesMatch(cs, ps, s) <==> GlobMatch(cs, Render(ps), s)
    decreases |ps|
  {
    if ps == [] {
    } else {
      assert WellFormed(ps[1..]);
      match ps[0]
      case Star =>
        forall k | 0 <= k <= |s|
          ensures PiecesMatch(cs, ps[1..], s[k..]) <==> GlobMatch(cs, Render(ps[1..]), s[k..])
        {
          PiecesMatchRender(cs, ps[1..], s[k..]);
        }
        StarPrefix(cs, Render(ps[1..]), s);
      case Literal(t) =>
        LiteralPrefix(cs, t, Render(ps[1..]), s);
        if |t| <= |s| {
          PiecesMatchRender(cs, ps[1..], s[|t|..]);
        }
    }
  }

  /** The compiled expression accepts exactly the names the wildcard text accepts. */
  lemma CompiledMatchesGlob(cs: bool, w: string, s: string)
    ensures PiecesMatch(cs, Tokenize(w), s) <==> GlobMatch(cs, w, s)
  {
    PiecesMatchRender(cs, Tokenize(w), s);
  }

  /** A wildcard without `*` matches exactly the names equal to it (up to case when case-insensitive). */
  lemma GlobWithoutStar(cs: bool, p: string, s: string)
    requires '*' !in p
    ensures GlobMatch(cs, p, s) <==> CharsMatch(cs, p, s)
  {
    LiteralPrefix(cs, p, [], s);
    assert p + [] == p;
    if |p| <= |s| && CharsMatch(cs, p, s[..|p|]) {
      assert GlobMatch(cs, [], s[|p|..]) <==> |p| == |s|;
      if |p| == |s| {
        assert s[..|p|] == s;
      }
    }
  }

  /** A lone `*` matches every name without a line terminator, and only those. */
  lemma StarMatchesAll(cs: bool, s: string)
    ensures GlobMatch(cs, "*", s) <==> NoLineTerminator(s)
  {
    StarPrefix(cs, [], s);
    assert "*" + [] == "*";
    if NoLineTerminator(s) {
      assert s[..|s|] == s;
      assert GlobMatch(cs, [], s[|s|..]);
    }
    if GlobMatch(cs, "*", s) {
      var k :| 0 <= k <= |s| && NoLineTerminator(s[..k]) && GlobMatch(cs, [], s[k..]);
      assert k == |s| && s[..k] == s;
    }
  }

  /** A literal run followed by `*` matches exactly the names that start with that run. */
  lemma PrefixThenStar(cs: bool, t: string, s: string)
    requires '*' !in t
    ensures GlobMatch(cs, t + "*", s)
        <==> |t| <= |s| && CharsMatch(cs, t, s[..|t|]) && NoLineTerminator(s[|t|..])
  {
    LiteralPrefix(cs, t, "*", s);
    if |t| <= |s| {
      StarMatchesAll(cs, s[|t|..]);
    }
  }
}
