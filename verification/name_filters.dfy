/**
 * The name-based strategy: plain branches whose name matches at least one of an
 * ordered list of name filters (exact, regular expression, or wildcards).
 */
module NameFilters {
  import opened Wrappers
  import opened Text
  import opened Glob
  import opened Scm

  datatype NameFilter =
    | Exact(name: string, caseSensitive: bool)
    | Regex(regex: string, caseSensitive: bool)
    | Wildcards(includes: string, excludes: string, caseSensitive: bool)

  /** The regular expression used when none is configured: every name. */
  const DefaultRegex: string := "^.*$"

  /** The exact filter's constructor: a missing name is the empty name. */
  function NewExact(name: Option<string>, caseSensitive: bool): (f: NameFilter)
    ensures f.Exact? && f.caseSensitive == caseSensitive
    ensures name.None? ==> f.name == ""
    ensures name.Some? ==> f.name == name.value
  {
    Exact(FixNull(name), caseSensitive)
  }

  /**
   * The regex filter's constructor: a missing or blank expression becomes `^.*$`.
   * The expression is compiled on construction, so a malformed one is an error
   * reported with its text and no filter is built.
   */
  function NewRegex(host: Host, regex: Option<string>, caseSensitive: bool): (r: Result<NameFilter, string>)
    ensures r.Success? <==> host.regexCompiles(DefaultIfBlank(regex, DefaultRegex))
    ensures r.Failure? ==> r.error == DefaultIfBlank(regex, DefaultRegex)
    ensures r.Success? ==> r.value.Regex? && r.value.caseSensitive == caseSensitive
    ensures r.Success? && (regex.None? || IsBlank(regex.value)) ==> r.value.regex == DefaultRegex
    ensures r.Success? && regex.Some? && !IsBlank(regex.value) ==> r.value.regex == regex.value
  {
    var effective := DefaultIfBlank(regex, DefaultRegex);
    if host.regexCompiles(effective) then Success(Regex(effective, caseSensitive))
    else Failure(effective)
  }

  /** The wildcard filter's constructor: blank includes become `*`, blank excludes become empty. */
  function NewWildcards(includes: Option<string>, excludes: Option<string>, caseSensitive: bool): (f: NameFilter)
    ensures f.Wildcards? && f.caseSensitive == caseSensitive
    ensures includes.None? || IsBlank(includes.value) ==> f.includes == "*"
    ensures includes.Some? && !IsBlank(includes.value) ==> f.includes == includes.value
    ensures excludes.None? || IsBlank(excludes.value) ==> f.excludes == ""
    ensures excludes.Some? && !IsBlank(excludes.value) ==> f.excludes == excludes.value
  {
    Wildcards(DefaultIfBlank(includes, "*"), DefaultIfBlank(excludes, ""), caseSensitive)
  }

  /**
   * The wildcards of a pattern list: the pieces of its split on single spaces
   * (trailing empty pieces already gone). Empty pieces before the first non-empty
   * one contribute nothing, because the `|` separator is only written once some
   * alternative has been; an empty piece after that is an empty alternative. When
   * nothing is left the expression is empty: one alternative matching only the
   * empty name.
   */
  function Alternatives(names: string): (alts: seq<string>)
    ensures |alts| >= 1
    ensures forall k :: 0 <= k < |alts| ==> ' ' !in alts[k]
    ensures alts != [""] ==> alts[0] != "" && alts[|alts| - 1] != ""
    ensures ' ' !in names ==> alts == [names]
  {
    var kept := DropLeadingEmpty(JavaSplit(names, ' '));
    KeptWildcardsAreNonEmptyAtTheEnds(names);
    if kept == [] then [""] else kept
  }

  lemma KeptWildcardsAreNonEmptyAtTheEnds(names: string)
    ensures var kept := DropLeadingEmpty(JavaSplit(names, ' '));
      && (forall k :: 0 <= k < |kept| ==> ' ' !in kept[k])
      && (kept != [] ==> kept[0] != [] && kept[|kept| - 1] != [])
      && (' ' !in names ==> if names == [] then kept == [] else kept == [names])
  {
    var split := JavaSplit(names, ' ');
    var n := LeadingEmpty(split);
    var kept := split[n..];
    assert forall k :: 0 <= k < |kept| ==> kept[k] == split[n + k];
    if ' ' in names {
      assert kept != [] ==> kept[|kept| - 1] == split[|split| - 1] != [];
    } else {
      assert split == [names];
      if names == [] {
        assert split[1..] == [];
      }
    }
  }

  /**
   * The wildcards are exactly the space-separated pieces of the pattern list once
   * its leading and trailing spaces are removed.
   */
  lemma AlternativesAreTrimmedSplit(names: string)
    ensures Alternatives(names) == SplitAll(TrimLeft(TrimRight(names, ' '), ' '), ' ')
  {
    var kept := DropLeadingEmpty(JavaSplit(names, ' '));
    var whole := SplitAll(TrimLeft(TrimRight(names, ' '), ' '), ' ');
    KeptJoin(names);
    KeptWildcardsAreNonEmptyAtTheEnds(names);
    if kept != [] {
      JoinInjective(kept, whole, ' ');
    }
  }

  lemma KeptJoin(names: string)
    ensures Join(DropLeadingEmpty(JavaSplit(names, ' ')), ' ') == TrimLeft(TrimRight(names, ' '), ' ')
  {
    JavaSplitJoin(names, ' ');
    JoinDropLeading(JavaSplit(names, ' '), ' ');
  }

  /** The compiled expression of a pattern list: one compiled alternative per wildcard, OR'ed. */
  function GetPattern(names: string): (pattern: seq<seq<Piece>>)
    ensures |pattern| == |Alternatives(names)|
    ensures forall k :: 0 <= k < |pattern| ==> Render(pattern[k]) == Alternatives(names)[k]
  {
    var alts := Alternatives(names);
    seq(|alts|, k requires 0 <= k < |alts| => Tokenize(alts[k]))
  }

  /** Whole-string match of an OR of compiled alternatives. */
  predicate PatternMatches(caseSensitive: bool, pattern: seq<seq<Piece>>, name: string) {
    exists k :: 0 <= k < |pattern| && PiecesMatch(caseSensitive, pattern[k], name)
  }

  /** Some wildcard of the list matches the name, read directly as globs. */
  predicate SomeGlobMatches(caseSensitive: bool, names: string, name: string) {
    var alts := Alternatives(names);
    exists k :: 0 <= k < |alts| && GlobMatch(caseSensitive, alts[k], name)
  }

  /** Whether one filter accepts a head name. */
  predicate IsMatch(f: NameFilter, host: Host, name: string) {
    match f
    case Exact(n, cs) => if cs then n == name else EqualsIgnoreCase(n, name)
    case Regex(r, cs) => host.regexMatches(r, cs, name)
    case Wildcards(inc, exc, cs) =>
      && PatternMatches(cs, GetPattern(inc), name)
      && (IsBlank(exc) || !PatternMatches(cs, GetPattern(exc), name))
  }

  /**
   * Try the items in order and stop at the first one `accepts` holds for. The
   * verdict says whether there was one and how many items were tried.
   */
  function FirstAccepted<T>(xs: seq<T>, accepts: T -> bool): (v: Verdict)
    ensures v.build <==> exists i :: 0 <= i < |xs| && accepts(xs[i])
    ensures v.consulted <= |xs|
    ensures !v.build ==> v.consulted == |xs|
    ensures v.build ==> v.consulted >= 1 && accepts(xs[v.consulted - 1])
    ensures forall i :: 0 <= i < v.consulted - 1 ==> !accepts(xs[i])
  {
    if xs == [] then Verdict(false, 0)
    else if accepts(xs[0]) then Verdict(true, 1)
    else
      var rest := FirstAccepted(xs[1..], accepts);
      assert forall i :: 1 <= i < |xs| ==> xs[i] == xs[1..][i - 1];
      Verdict(rest.build, rest.consulted + 1)
  }

  /**
   * Try the filters in order and stop at the first that accepts the name. The
   * verdict says whether one did and how many filters were tried.
   */
  function MatchFilters(filters: seq<NameFilter>, host: Host, name: string): (v: Verdict)
    ensures v.build <==> exists i :: 0 <= i < |filters| && IsMatch(filters[i], host, name)
    ensures v.consulted <= |filters|
    ensures !v.build ==> v.consulted == |filters|
    ensures v.build ==> v.consulted >= 1 && IsMatch(filters[v.consulted - 1], host, name)
    ensures forall i :: 0 <= i < v.consulted - 1 ==> !IsMatch(filters[i], host, name)
  {
    FirstAccepted(filters, f => IsMatch(f, host, name))
  }

  /**
   * `NamedBranchBuildStrategyImpl.isAutomaticBuild`: change requests and tags are
   * never built; a plain branch is built when some filter accepts its name.
   */
  function NamedDecision(filters: seq<NameFilter>, host: Host, ctx: Context): (v: Verdict)
    ensures !ctx.head.Branch? ==> v == Verdict(false, 0)
    ensures ctx.head.Branch? ==>
      (v.build <==> exists i :: 0 <= i < |filters| && IsMatch(filters[i], host, ctx.head.name))
  {
    match ctx.head
    case ChangeRequest(_, _) => Verdict(false, 0)
    case Tag(_, _) => Verdict(false, 0)
    case Branch(name) => MatchFilters(filters, host, name)
  }

  /** The wildcard filter accepts a name iff an include glob matches it and, unless excludes are blank, no exclude glob does. */
  lemma WildcardsMatchIff(includes: string, excludes: string, cs: bool, host: Host, name: string)
    ensures IsMatch(Wildcards(includes, excludes, cs), host, name)
        <==> SomeGlobMatches(cs, includes, name) && (IsBlank(excludes) || !SomeGlobMatches(cs, excludes, name))
  {
    PatternMatchesGlobs(cs, includes, name);
    PatternMatchesGlobs(cs, excludes, name);
  }

  lemma PatternMatchesGlobs(cs: bool, names: string, name: string)
    ensures PatternMatches(cs, GetPattern(names), name) <==> SomeGlobMatches(cs, names, name)
  {
    var alts := Alternatives(names);
    forall k | 0 <= k < |alts|
      ensures PiecesMatch(cs, GetPattern(names)[k], name) <==> GlobMatch(cs, alts[k], name)
    {
      CompiledMatchesGlob(cs, alts[k], name);
    }
  }

  /** With includes and excludes left blank, a wildcard filter accepts every single-line name. */
  lemma DefaultWildcardsMatchEverything(includes: Option<string>, excludes: Option<string>, cs: bool, host: Host, name: string)
    requires includes.None? || IsBlank(includes.value)
    requires excludes.None? || IsBlank(excludes.value)
    ensures IsMatch(NewWildcards(includes, excludes, cs), host, name) <==> NoLineTerminator(name)
  {
    var f := NewWildcards(includes, excludes, cs);
    assert f == Wildcards("*", f.excludes, cs) && IsBlank(f.excludes);
    assert SomeGlobMatches(cs, "*", name) <==> NoLineTerminator(name) by {
      SingleWildcard(cs, "*", name);
      StarMatchesAll(cs, name);
    }
    WildcardsMatchIff("*", f.excludes, cs, host, name);
  }

  /**
   * An exact filter for a non-blank name without spaces or stars accepts the same
   * names as a wildcard filter configured with that name as its only include:
   * exact matching agrees with the wildcard reading of a star-free pattern. Both
   * fold ASCII letters only when case-insensitive.
   */
  lemma ExactAgreesWithStarFreeWildcard(n: string, cs: bool, host: Host, name: string)
    requires !IsBlank(n) && ' ' !in n && '*' !in n
    ensures IsMatch(NewExact(Some(n), cs), host, name) <==> IsMatch(NewWildcards(Some(n), None, cs), host, name)
  {
    assert NewWildcards(Some(n), None, cs) == Wildcards(n, "", cs);
    assert IsMatch(Wildcards(n, "", cs), host, name) <==> SomeGlobMatches(cs, n, name) by {
      WildcardsMatchIff(n, "", cs, host, name);
    }
    assert SomeGlobMatches(cs, n, name) <==> CharsMatch(cs, n, name) by {
      SingleWildcard(cs, n, name);
      GlobWithoutStar(cs, n, name);
    }
    assert IsMatch(Exact(n, cs), host, name) <==> CharsMatch(cs, n, name) by {
      CaseSensitiveCharsMatchIsEquality(n, name);
    }
  }

  /** A pattern list without spaces is a single wildcard. */
  lemma SingleWildcard(cs: bool, names: string, name: string)
    requires ' ' !in names
    ensures SomeGlobMatches(cs, names, name) <==> GlobMatch(cs, names, name)
  {
    if GlobMatch(cs, names, name) {
      assert GlobMatch(cs, Alternatives(names)[0], name);
    }
  }

  /**
   * Case-insensitive exact matching is an equivalence on names, and every
   * case-sensitive match is also a case-insensitive one.
   */
  lemma ExactCaseInsensitiveIsEquivalence(host: Host, a: string, b: string, c: string)
    ensures IsMatch(Exact(a, false), host, a)
    ensures IsMatch(Exact(a, false), host, b) ==> IsMatch(Exact(b, false), host, a)
    ensures IsMatch(Exact(a, false), host, b) && IsMatch(Exact(b, false), host, c) ==> IsMatch(Exact(a, false), host, c)
    ensures IsMatch(Exact(a, true), host, b) ==> IsMatch(Exact(a, false), host, b)
  {
  }

  /** Spaces at either end of a pattern list add no wildcard. */
  lemma EndSpacesAddNoWildcard(names: string)
    ensures Alternatives(" " + names) == Alternatives(names)
    ensures Alternatives(names + " ") == Alternatives(names)
  {
    AlternativesAreTrimmedSplit(" " + names);
    AlternativesAreTrimmedSplit(names + " ");
    AlternativesAreTrimmedSplit(names);
    EndSeparatorsAreTrimmed(names, ' ');
  }

  /**
   * So a leading space does not make the include list accept the empty name, nor
   * the exclude list reject it.
   */
  lemma LeadingSpaceMatchesNoEmptyName(host: Host, cs: bool, w: string)
    requires w != [] && ' ' !in w && '*' !in w
    ensures !IsMatch(Wildcards(" " + w, "", cs), host, "")
    ensures IsMatch(Wildcards("*", " " + w, cs), host, "")
  {
    EndSpacesAddNoWildcard(w);
    assert !SomeGlobMatches(cs, " " + w, "") by {
      SingleWildcard(cs, w, "");
      GlobWithoutStar(cs, w, "");
    }
    assert SomeGlobMatches(cs, "*", "") by {
      SingleWildcard(cs, "*", "");
      StarMatchesAll(cs, "");
    }
    WildcardsMatchIff(" " + w, "", cs, host, "");
    WildcardsMatchIff("*", " " + w, cs, host, "");
  }
}
