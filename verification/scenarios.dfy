/** Concrete scenarios taken from the repository's unit tests, proved about the model. */
module Scenarios {
  import opened Wrappers
  import opened Text
  import opened Glob
  import opened Scm
  import opened NameFilters
  import opened TagWindow
  import opened ChangeRequestFilter
  import opened Strategies
  import Decimal

  /** One include wildcard and one plain exclude name: include matches and the name is not the excluded one. */
  lemma OneIncludeOneExclude(inc: string, exc: string, cs: bool, host: Host, name: string)
    requires ' ' !in inc && ' ' !in exc && '*' !in exc && !IsBlank(exc)
    ensures IsMatch(Wildcards(inc, exc, cs), host, name) <==> GlobMatch(cs, inc, name) && !CharsMatch(cs, exc, name)
  {
    WildcardsMatchIff(inc, exc, cs, host, name);
    SingleWildcard(cs, inc, name);
    SingleWildcard(cs, exc, name);
    GlobWithoutStar(cs, exc, name);
  }

  // The filter with include "feature/*" and exclude "feature", from the name rule's tests.
  lemma FeatureFilter(host: Host, name: string)
    ensures var f := NewWildcards(Some("feature/*"), Some("feature"), false);
      IsMatch(f, host, name) <==> GlobMatch(false, "feature/" + "*", name) && !CharsMatch(false, "feature", name)
  {
    assert !IsBlank("feature/*") by { assert !IsWhitespace("feature/*"[0]); }
    assert !IsBlank("feature") by { assert !IsWhitespace("feature"[0]); }
    assert "feature/" + "*" == "feature/*";
    assert NewWildcards(Some("feature/*"), Some("feature"), false) == Wildcards("feature/*", "feature", false);
    OneIncludeOneExclude("feature/*", "feature", false, host, name);
  }

  // The include "feature/*" with exclude "feature" accepts "feature/1" ...
  lemma FeatureFilterAcceptsBranchUnderFeature(host: Host)
    ensures IsMatch(NewWildcards(Some("feature/*"), Some("feature"), false), host, "feature/1")
  {
    var t, s := "feature/", "feature/1";
    assert '*' !in t;
    assert s[..8] == t && s[8..] == "1";
    assert NoLineTerminator(s[8..]) by { assert !IsLineTerminator('1'); }
    assert CharsMatch(false, t, s[..8]);
    assert GlobMatch(false, t + "*", s) by { PrefixThenStar(false, t, s); }
    assert !CharsMatch(false, "feature", s) by { assert |s| != 7; }
    FeatureFilter(host, s);
  }

  // ... and rejects "feature" itself ...
  lemma FeatureFilterRejectsExcluded(host: Host)
    ensures !IsMatch(NewWildcards(Some("feature/*"), Some("feature"), false), host, "feature")
  {
    FeatureFilter(host, "feature");
    assert CharsMatch(false, "feature", "feature");
  }

  // ... and "master", which the include does not match.
  lemma FeatureFilterRejectsOtherNames(host: Host)
    ensures !IsMatch(NewWildcards(Some("feature/*"), Some("feature"), false), host, "master")
  {
    var t, s := "feature/", "master";
    assert '*' !in t;
    assert !GlobMatch(false, t + "*", s) by {
      PrefixThenStar(false, t, s);
      assert |s| < |t|;
    }
    FeatureFilter(host, s);
  }

  /** A case-insensitive exact filter for "master" accepts "MASTER" but not "master2". */
  lemma ExactCaseInsensitiveExample(host: Host)
    ensures IsMatch(NewExact(Some("master"), false), host, "MASTER")
    ensures !IsMatch(NewExact(Some("master"), false), host, "master2")
  {
    assert CharsMatch(false, "master", "MASTER") by {
      forall i | 0 <= i < 6 ensures Fold("master"[i]) == Fold("MASTER"[i]) {
      }
    }
  }

  /** Tags between one and three days old: too young, inside, and too old. */
  lemma TagWindowDaysExample(name: string, now: int)
    ensures NewWindowFromDays(Some("1"), Some("3")).Success?
    ensures var w := NewWindowFromDays(Some("1"), Some("3")).value;
      && !TagDecision(w, now, Tag(name, now))
      && TagDecision(w, now, Tag(name, now - 2 * MillisPerDay))
      && !TagDecision(w, now, Tag(name, now - 4 * MillisPerDay))
  {
    DayNumeral(1);
    DayNumeral(3);
  }

  /** A minimum of three days with a maximum of one never builds, whatever the tag's age. */
  lemma TagWindowInvertedExample(name: string, now: int, timestamp: int)
    ensures NewWindowFromDays(Some("3"), Some("1")).Success?
    ensures !TagDecision(NewWindowFromDays(Some("3"), Some("1")).value, now, Tag(name, timestamp))
  {
    DayNumeral(1);
    DayNumeral(3);
  }

  lemma DayNumeral(n: nat)
    requires n < 10
    ensures ParseDays(Some([Decimal.DigitChar(n)])) == Success(n)
  {
    var s := [Decimal.DigitChar(n)];
    assert !IsBlank(s) by { assert !IsWhitespace(s[0]); }
    assert Decimal.AllDigits(s);
    assert Decimal.DigitsValue(s) == n by { assert s[..0] == []; }
  }

  /** On a plain branch the regular-branch rule always builds and the tag rule never does: test doubles for true and false. */
  const Yes: Strategy := RegularBranches
  const No: Strategy := Tags(Window(Disabled, Disabled))

  /** The composites' unit tests, with a plain-branch head. */
  lemma CompositeExamples(host: Host, ctx: Context)
    requires ctx.head.Branch?
    ensures Eval(All([Yes, Yes]), host, ctx) == Verdict(true, 2)
    ensures Eval(All([No, Yes]), host, ctx) == Verdict(false, 1)
    ensures Eval(NoneOf([No, No]), host, ctx) == Verdict(true, 2)
    ensures Eval(NoneOf([Yes, Yes]), host, ctx) == Verdict(false, 1)
    ensures Eval(NoneOf([Yes, No]), host, ctx) == Verdict(false, 1)
    ensures Eval(AnyOf([Yes, Yes]), host, ctx) == Verdict(true, 1)
    ensures Eval(AnyOf([No, No]), host, ctx) == Verdict(false, 2)
    ensures Eval(AnyOf([Yes, No]), host, ctx) == Verdict(true, 1)
  {
  }

  /** A merge revision whose only change since the last build is its target is skipped; a source-side change is built. */
  lemma TargetOnlyChangeExample(host: Host, head: Head, target: string)
    requires head.ChangeRequest?
    requires var curr := ChangeRequestRevision("dummy", "dummy", true);
      host.equivalent(curr, ChangeRequestRevision("dummy", "old-dummy", true))
    requires var curr := ChangeRequestRevision("new-dummy", "dummy", true);
      !host.equivalent(curr, ChangeRequestRevision("dummy", "dummy", true))
    ensures !ChangeRequestDecision(Flags(true, false), host,
      Context(head, ChangeRequestRevision("dummy", "dummy", true), Some(ChangeRequestRevision("dummy", "old-dummy", true)), None, []))
    ensures ChangeRequestDecision(Flags(true, false), host,
      Context(head, ChangeRequestRevision("new-dummy", "dummy", true), Some(ChangeRequestRevision("dummy", "dummy", true)), None, []))
  {
  }

  /** The four filters of the name rule's unit tests, in order. */
  function TestFilters(host: Host): seq<NameFilter>
    requires host.regexCompiles("^staging-.*$")
  {
    assert !IsBlank("^staging-.*$") by { assert !IsWhitespace("^staging-.*$"[0]); }
    [NewExact(Some("master"), false), NewExact(Some("production"), false),
     NewRegex(host, Some("^staging-.*$"), false).value,
     NewWildcards(Some("feature/*"), Some("feature"), false)]
  }

  /** "master" is accepted by the first filter, and no later filter is consulted. */
  lemma NamedFirstFilterExample(host: Host, rev: Revision)
    requires host.regexCompiles("^staging-.*$")
    ensures Eval(NamedBranches(TestFilters(host)), host, Context(Branch("master"), rev, None, None, [])) == Verdict(true, 1)
  {
    assert CharsMatch(false, "master", "master");
  }

  /** "feature/1" is accepted, by the wildcard filter at the latest. */
  lemma NamedLastFilterExample(host: Host, rev: Revision)
    requires host.regexCompiles("^staging-.*$")
    ensures Eval(NamedBranches(TestFilters(host)), host, Context(Branch("feature/1"), rev, None, None, [])).build
  {
    var filters := TestFilters(host);
    FeatureFilterAcceptsBranchUnderFeature(host);
    assert IsMatch(filters[3], host, "feature/1");
  }

  /** "feature" is refused after all four filters, given that the host's matcher rejects it for the staging expression. */
  lemma NamedNoFilterExample(host: Host, rev: Revision)
    requires host.regexCompiles("^staging-.*$")
    requires !host.regexMatches("^staging-.*$", false, "feature")
    ensures Eval(NamedBranches(TestFilters(host)), host, Context(Branch("feature"), rev, None, None, [])) == Verdict(false, 4)
  {
    NoTestFilterAcceptsFeature(host);
    NoneAcceptsConsultsAll(TestFilters(host), host, Context(Branch("feature"), rev, None, None, []));
  }

  lemma NoneAcceptsConsultsAll(filters: seq<NameFilter>, host: Host, ctx: Context)
    requires ctx.head.Branch?
    requires forall i :: 0 <= i < |filters| ==> !IsMatch(filters[i], host, ctx.head.name)
    ensures Eval(NamedBranches(filters), host, ctx) == Verdict(false, |filters|)
  {
    var v := MatchFilters(filters, host, ctx.head.name);
    assert !v.build;
  }

  lemma NoTestFilterAcceptsFeature(host: Host)
    requires host.regexCompiles("^staging-.*$")
    requires !host.regexMatches("^staging-.*$", false, "feature")
    ensures |TestFilters(host)| == 4
    ensures forall i :: 0 <= i < |TestFilters(host)| ==> !IsMatch(TestFilters(host)[i], host, "feature")
  {
    ExactTestFiltersRejectFeature(host);
    StagingTestFilter(host);
    FeatureFilterRejectsExcluded(host);
    var filters := TestFilters(host);
    assert filters[2] == Regex("^staging-.*$", false);
    forall i | 0 <= i < |filters|
      ensures !IsMatch(filters[i], host, "feature")
    {
      assert i == 0 || i == 1 || i == 2 || i == 3;
    }
  }

  lemma ExactTestFiltersRejectFeature(host: Host)
    ensures !IsMatch(NewExact(Some("master"), false), host, "feature")
    ensures !IsMatch(NewExact(Some("production"), false), host, "feature")
  {
    assert |"master"| != |"feature"| && |"production"| != |"feature"|;
  }

  lemma StagingTestFilter(host: Host)
    requires host.regexCompiles("^staging-.*$")
    ensures NewRegex(host, Some("^staging-.*$"), false) == Success(Regex("^staging-.*$", false))
  {
    assert !IsBlank("^staging-.*$") by { assert !IsWhitespace("^staging-.*$"[0]); }
  }
}
