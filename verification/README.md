# Basic branch build strategies, modelled in Dafny

This project models the decision rules of the basic branch build strategies for
a multi-branch CI project. For one discovered source-control head (a plain
branch, a tag with its creation time, or a change request) a strategy decides
whether an automatic build should fire. The decision is a pure function of a
context: the head, the current revision, the optional last-built and last-seen
revisions, and the trigger causes. Each strategy adds its own fixed configuration.

The model is one recursive `Strategy` datatype (`strategy.dfy`) evaluated by
`Strategies.Eval`. `Eval` returns a `Verdict`: the decision, and how many direct
children were consulted. The children are the sub-strategies of a composite or
the name filters of the name rule. The count is what lets the model state
short-circuiting.

- Leaves:
  - `RegularBranches`: builds plain branches only.
  - `NamedBranches`: exact, regular-expression and wildcard name filters.
  - `ChangeRequests`: target-only and trust checks.
  - `Tags`: the age window.
  - `SkipUserCauses`: refuses user-triggered evaluations.
  - The two "skip initial build" variants, kept apart because they differ (`LeafProperties.SkipVariantsDiffer`).
- Composites:
  - `All`, `NoneOf` and `AnyOf`, each ordered and short-circuiting.
  - `AnyOf`'s implementation is not part of this model. It is built from its unit tests only.
- Host capabilities live in `Scm.Host`. They are the clock `now`, the regular-expression matcher, the test of whether an expression compiles, the change-request
  "equivalent ignoring target" test, and the trusted-revision lookup, which may
  answer `LookupFailed`. All are parameters, not implementations.
- Wildcards (`glob.dfy`):
  - The filter compiles each space-separated wildcard into quoted literal runs and `.*`.
    `Glob.Tokenize` models that compilation and `Glob.PiecesMatch` the meaning of the compiled expression.
  - `Glob.GlobMatch` reads the wildcard text directly, and `Glob.CompiledMatchesGlob` proves the two agree.
  - The expression is compiled without DOTALL, so `*` does not match across a line terminator.
  - Case-insensitive patterns fold ASCII letters only.
- Entry points. Each rule is evaluated through the widest entry point it implements. Composites forward
  only what their own entry point carries:
  - `All` implements only the entry point without causes, so its children see no causes (`Scm.WithoutCauses`).
  - `NoneOf` implements only the legacy entry point with a single previous revision and calls its children through it.
    They see that revision as both last-built and last-seen, and no causes (`Scm.FromPrevious`).
  - `NoneOf` itself is assumed to receive the last-built revision as that previous revision.
  - `AnyOf` is assumed to forward like `All`.
  - One consequence: a user-cause rule nested in `All` or `NoneOf` never sees a user cause
    (`CompositeProperties.UserCauseRuleUnderAllAlwaysBuilds`, `CompositeProperties.UserCauseRuleUnderNoneOfNeverBuilds`).
- Equality of configurations is Dafny's datatype equality. This is the structural, order-sensitive `equals`
  of the name, tag, all, none and regular-branch strategies. For the change-request strategy it is the
  corrected `equals`, since the written one is wrong (see Findings).
- A malformed day string for the tag strategy is rejected by `Long.parseLong`, so the day-string
  constructor returns `Failure` rather than a disabled bound (`TagWindow.MalformedDaysAreRejected`).

## Model

| member | source | states |
|---|---|---|
| NameFilters.NewExact | src/main/java/jenkins/branch/buildstrategies/basic/NamedBranchBuildStrategyImpl.java:172-176 | a missing configured name becomes the empty name; the case flag is kept |
| NameFilters.NewRegex | src/main/java/jenkins/branch/buildstrategies/basic/NamedBranchBuildStrategyImpl.java:242-247 | a missing or blank expression becomes `^.*$`, any other is kept as given, and an expression that does not compile is an error naming it |
| NameFilters.NewWildcards | src/main/java/jenkins/branch/buildstrategies/basic/NamedBranchBuildStrategyImpl.java:335-342 | blank includes become `*`, blank excludes become empty, non-blank ones are kept |
| Text.SplitAll | src/main/java/jenkins/branch/buildstrategies/basic/NamedBranchBuildStrategyImpl.java:420 | splitting on a space yields pieces free of spaces that join back to the original text |
| Text.JavaSplit | src/main/java/jenkins/branch/buildstrategies/basic/NamedBranchBuildStrategyImpl.java:420 | `String.split`: text without the separator is one piece; otherwise the pieces are free of it and the last is non-empty |
| Text.JavaSplitJoin | src/main/java/jenkins/branch/buildstrategies/basic/NamedBranchBuildStrategyImpl.java:420 | joining what `String.split` returns gives the text without its trailing separators |
| Text.JoinInjective | src/main/java/jenkins/branch/buildstrategies/basic/NamedBranchBuildStrategyImpl.java:420 | two lists of separator-free pieces that join to the same text are equal |
| NameFilters.Alternatives | src/main/java/jenkins/branch/buildstrategies/basic/NamedBranchBuildStrategyImpl.java:418-435 | a pattern list has at least one wildcard, none containing a space; unless it is the single empty wildcard its first and last wildcards are non-empty; a list without spaces is a single wildcard |
| NameFilters.AlternativesAreTrimmedSplit | src/main/java/jenkins/branch/buildstrategies/basic/NamedBranchBuildStrategyImpl.java:418-435 | the wildcards are exactly the pieces of the list with its leading and trailing spaces removed, split at every space, so inner empty wildcards stay |
| NameFilters.EndSpacesAddNoWildcard | src/main/java/jenkins/branch/buildstrategies/basic/NamedBranchBuildStrategyImpl.java:420-433 | a leading or a trailing space adds no wildcard, the first because no `|` is written before the first non-empty branch, the second because `split` drops it |
| NameFilters.LeadingSpaceMatchesNoEmptyName | src/main/java/jenkins/branch/buildstrategies/basic/NamedBranchBuildStrategyImpl.java:429-433 | a list whose only empty piece is a leading one does not match the empty name, so it is not an alternative |
| NameFilters.GetPattern | src/main/java/jenkins/branch/buildstrategies/basic/NamedBranchBuildStrategyImpl.java:418-435 | one compiled alternative per wildcard, each rendering back to its wildcard text |
| NameFilters.PatternMatchesGlobs | src/main/java/jenkins/branch/buildstrategies/basic/NamedBranchBuildStrategyImpl.java:418-435 | the compiled pattern accepts a name iff one of the wildcards, read as text, matches it |
| NameFilters.SingleWildcard | src/main/java/jenkins/branch/buildstrategies/basic/NamedBranchBuildStrategyImpl.java:420 | a list without spaces matches exactly what its one wildcard matches |
| Glob.Tokenize | src/main/java/jenkins/branch/buildstrategies/basic/NamedBranchBuildStrategyImpl.java:421-428 | a wildcard compiles to maximal non-empty literal runs separated by stars, and rendering the pieces gives the wildcard back |
| Glob.CompiledMatchesGlob | src/main/java/jenkins/branch/buildstrategies/basic/NamedBranchBuildStrategyImpl.java:418-435 | the compiled expression (quoted literals and `.*`) accepts exactly the names the wildcard text accepts |
| Glob.StarMatchesAll | src/main/java/jenkins/branch/buildstrategies/basic/NamedBranchBuildStrategyImpl.java:423-424 | a lone `*` matches exactly the names without a line terminator |
| Glob.GlobWithoutStar | src/main/java/jenkins/branch/buildstrategies/basic/NamedBranchBuildStrategyImpl.java:425-426 | a wildcard without `*` matches exactly the names equal to it, up to case when case-insensitive |
| Glob.PrefixThenStar | src/main/java/jenkins/branch/buildstrategies/basic/NamedBranchBuildStrategyImpl.java:421-428 | a literal followed by `*` matches exactly the names that start with that literal |
| NameFilters.WildcardsMatchIff | src/main/java/jenkins/branch/buildstrategies/basic/NamedBranchBuildStrategyImpl.java:358-373 | a wildcard filter accepts iff some include wildcard matches and, unless excludes are blank, no exclude wildcard matches |
| NameFilters.DefaultWildcardsMatchEverything | src/main/java/jenkins/branch/buildstrategies/basic/NamedBranchBuildStrategyImpl.java:336-338 | with blank includes and excludes the filter accepts every single-line name |
| NameFilters.ExactAgreesWithStarFreeWildcard | src/main/java/jenkins/branch/buildstrategies/basic/NamedBranchBuildStrategyImpl.java:172-190 | an exact filter and a wildcard filter configured with the same non-blank name without spaces or stars accept the same names: case-sensitively, and case-insensitively up to ASCII case |
| NameFilters.ExactCaseInsensitiveIsEquivalence | src/main/java/jenkins/branch/buildstrategies/basic/NamedBranchBuildStrategyImpl.java:187-190 | case-insensitive exact matching is reflexive, symmetric and transitive, and implied by case-sensitive matching |
| NameFilters.MatchFilters | src/main/java/jenkins/branch/buildstrategies/basic/NamedBranchBuildStrategyImpl.java:87-93 | true iff some filter accepts the name; filters are tried in order up to the first acceptance, all of them when none accepts |
| NameFilters.NamedDecision | src/main/java/jenkins/branch/buildstrategies/basic/NamedBranchBuildStrategyImpl.java:79-94 | change requests and tags are never built and no filter is tried; a plain branch is built iff some filter accepts its name |
| LeafProperties.NamedRejectsChangeRequestsAndTags | src/main/java/jenkins/branch/buildstrategies/basic/NamedBranchBuildStrategyImpl.java:81-86 | the name rule never builds a change request or a tag, whatever its filters |
| LeafProperties.NamedIff | src/main/java/jenkins/branch/buildstrategies/basic/NamedBranchBuildStrategyImpl.java:70-93 | on a plain branch the name rule builds iff some filter accepts; a missing filter list never builds |
| LeafProperties.NamedStopsAtFirstMatch | src/main/java/jenkins/branch/buildstrategies/basic/NamedBranchBuildStrategyImpl.java:88-91 | when filter j is the first to accept, exactly j+1 filters are consulted and the rule builds |
| Scenarios.FeatureFilterAcceptsBranchUnderFeature | src/main/java/jenkins/branch/buildstrategies/basic/NamedBranchBuildStrategyImpl.java:358-373 | include `feature/*` with exclude `feature` accepts `feature/1` |
| Scenarios.FeatureFilterRejectsExcluded | src/main/java/jenkins/branch/buildstrategies/basic/NamedBranchBuildStrategyImpl.java:358-373 | the same filter rejects `feature`, which the exclude names |
| Scenarios.FeatureFilterRejectsOtherNames | src/main/java/jenkins/branch/buildstrategies/basic/NamedBranchBuildStrategyImpl.java:358-373 | the same filter rejects `master`, which no include matches |
| Scenarios.ExactCaseInsensitiveExample | src/main/java/jenkins/branch/buildstrategies/basic/NamedBranchBuildStrategyImpl.java:188-190 | a case-insensitive exact `master` accepts `MASTER` and rejects `master2` |
| Scenarios.NamedFirstFilterExample | src/test/java/jenkins/branch/buildstrategies/basic/NamedBranchBuildStrategyImplTest.java:144-165 | with the tests' four filters, `master` is accepted by the first and no later filter is consulted |
| Scenarios.NamedLastFilterExample | src/test/java/jenkins/branch/buildstrategies/basic/NamedBranchBuildStrategyImplTest.java:167-188 | with the same filters, `feature/1` is built |
| Scenarios.NamedNoFilterExample | src/test/java/jenkins/branch/buildstrategies/basic/NamedBranchBuildStrategyImplTest.java:121-142 | with the same filters, `feature` is refused after all four are tried, provided the host matcher rejects it for `^staging-.*$` |
| ChangeRequestFilter.NewFlags | src/main/java/jenkins/branch/buildstrategies/basic/ChangeRequestBuildStrategyImpl.java:72-75 | the one-flag constructor never ignores untrusted changes |
| ChangeRequestFilter.ChangeRequestDecision | src/main/java/jenkins/branch/buildstrategies/basic/ChangeRequestBuildStrategyImpl.java:136-163 | builds iff the head is a change request, it is not a target-only change (when those are ignored), and the trust lookup returned the current revision (when untrusted changes are ignored) |
| ChangeRequestFilter.TrustIgnoredWhenFlagOff | src/main/java/jenkins/branch/buildstrategies/basic/ChangeRequestBuildStrategyImpl.java:150-153 | without the untrusted flag, replacing the trust lookup by any other leaves the decision unchanged |
| ChangeRequestFilter.FailedLookupMeansNoBuild | src/main/java/jenkins/branch/buildstrategies/basic/ChangeRequestBuildStrategyImpl.java:154-161 | with the untrusted flag, a failed trust lookup is swallowed and means no build |
| ChangeRequestFilter.HashCode | src/main/java/jenkins/branch/buildstrategies/basic/ChangeRequestBuildStrategyImpl.java:186-188 | the hash code encodes both flags: it is odd iff target-only changes are ignored and at least 2 iff untrusted changes are |
| ChangeRequestFilter.EqualsAsWrittenBreaksHashContract | src/main/java/jenkins/branch/buildstrategies/basic/ChangeRequestBuildStrategyImpl.java:168-188 | the written equals calls two strategies equal although their hash codes differ and they decide differently |
| ChangeRequestFilter.EqualsConsistentWithHashCode | src/main/java/jenkins/branch/buildstrategies/basic/ChangeRequestBuildStrategyImpl.java:168-188 | the corrected equals is configuration equality and holds exactly when the hash codes agree |
| Scenarios.TargetOnlyChangeExample | src/test/java/jenkins/branch/buildstrategies/basic/ChangeRequestBuildStrategyImplTest.java:196-252 | a merge revision equivalent to the last build apart from its target is skipped; a source-side change is built |
| TagWindow.Bound | src/main/java/jenkins/branch/buildstrategies/basic/TagBuildStrategyImpl.java:83-86 | a missing or negative amount is the -1 sentinel; a non-negative amount is converted to milliseconds |
| TagWindow.NewWindow | src/main/java/jenkins/branch/buildstrategies/basic/TagBuildStrategyImpl.java:83-86 | every stored bound is either the sentinel or non-negative |
| TagWindow.NewWindowFromDays | src/main/java/jenkins/branch/buildstrategies/basic/TagBuildStrategyImpl.java:65-72 | the day-string constructor succeeds iff both fields parse (blank reads as -1); the minimum's error is reported first |
| TagWindow.TagDecision | src/main/java/jenkins/branch/buildstrategies/basic/TagBuildStrategyImpl.java:141-162 | only tags are built, and a tag iff its age respects each enabled bound, both ends inclusive |
| TagWindow.InvertedWindowNeverBuilds | src/main/java/jenkins/branch/buildstrategies/basic/TagBuildStrategyImpl.java:147-152 | with both bounds enabled and the minimum above the maximum nothing is built |
| TagWindow.UnboundedWindowBuildsEveryTag | src/main/java/jenkins/branch/buildstrategies/basic/TagBuildStrategyImpl.java:144-161 | with both bounds disabled every tag is built, whatever its age |
| TagWindow.DisabledSpellingsAgree | src/main/java/jenkins/branch/buildstrategies/basic/TagBuildStrategyImpl.java:66-72 | "-1", "" and a missing string configure the same disabled bound |
| TagWindow.DaysAreStoredInMillis | src/main/java/jenkins/branch/buildstrategies/basic/TagBuildStrategyImpl.java:66-85 | n days, in the minimum or the maximum field, are stored as n times 86,400,000 milliseconds |
| TagWindow.MalformedDaysAreRejected | src/main/java/jenkins/branch/buildstrategies/basic/TagBuildStrategyImpl.java:66-72 | a non-blank, non-numeric day string is an error reporting that string: always as the minimum, and as the maximum whenever the minimum parses |
| TagWindow.DaysGetterRoundTrip | src/main/java/jenkins/branch/buildstrategies/basic/TagBuildStrategyImpl.java:88-98 | each day getter returns the numeral its bound was configured with |
| TagWindow.DisabledGetterIsEmpty | src/main/java/jenkins/branch/buildstrategies/basic/TagBuildStrategyImpl.java:88-98 | each day getter returns the empty string exactly when its bound is negative |
| TagWindow.FormRoundTrip | src/main/java/jenkins/branch/buildstrategies/basic/TagBuildStrategyImpl.java:65-98 | binding the day strings a strategy displays reproduces the same strategy |
| Decimal.ParseLong | src/main/java/jenkins/branch/buildstrategies/basic/TagBuildStrategyImpl.java:69-70 | parsing succeeds exactly on an optionally signed, non-empty digit string, whose value is that of its digits, negated after a minus sign; a failure reports the text |
| Decimal.ParseLongNegative | src/main/java/jenkins/branch/buildstrategies/basic/TagBuildStrategyImpl.java:66-70 | a minus sign before the printed numeral of a count parses as the negated count, which is how "-1" reads as the disabled sentinel |
| Decimal.LeadingZeroAddsNothing | src/main/java/jenkins/branch/buildstrategies/basic/TagBuildStrategyImpl.java:69-70 | a leading zero does not change the value of a digit string |
| Decimal.ParseLongPlus | src/main/java/jenkins/branch/buildstrategies/basic/TagBuildStrategyImpl.java:69-70 | a plus sign reads the same as no sign |
| Decimal.ParseLongLeadingZero | src/main/java/jenkins/branch/buildstrategies/basic/TagBuildStrategyImpl.java:69-70 | a leading zero reads the same as without it |
| Decimal.ParseLongMinus | src/main/java/jenkins/branch/buildstrategies/basic/TagBuildStrategyImpl.java:69-70 | a minus sign negates, so `-0` reads as zero rather than as a negative count |
| Decimal.ParseLongOfNatToString | src/main/java/jenkins/branch/buildstrategies/basic/TagBuildStrategyImpl.java:91 | parsing the printed numeral of a count gives the count back |
| Decimal.NatToString | src/main/java/jenkins/branch/buildstrategies/basic/TagBuildStrategyImpl.java:91 | a count prints as a non-empty digit string without a leading zero |
| Scenarios.TagWindowDaysExample | src/test/java/jenkins/branch/buildstrategies/basic/TagBuildStrategyImplTest.java:163-212 | with a window of one to three days, tags aged 0, 2 and 4 days give false, true, false |
| Scenarios.TagWindowInvertedExample | src/test/java/jenkins/branch/buildstrategies/basic/TagBuildStrategyImplTest.java:144-161 | a minimum of 3 days with a maximum of 1 never builds |
| Strategies.FixNullList | src/main/java/jenkins/branch/buildstrategies/basic/AllBranchBuildStrategyImpl.java:60-63 | a missing list reads as the empty list and a present one as itself |
| Strategies.EvalAll | src/main/java/jenkins/branch/buildstrategies/basic/AllBranchBuildStrategyImpl.java:94-107 | the conjunction holds iff every remaining child builds; it stops right after the first refusal and consults all children otherwise |
| Strategies.EvalNone | src/main/java/jenkins/branch/buildstrategies/basic/NoneBranchBuildStrategyImpl.java:74-85 | "none" holds iff no remaining child builds; it stops right after the first child that builds |
| Strategies.EvalAny | src/test/java/jenkins/branch/buildstrategies/basic/AnyBranchBuildStrategyImplTest.java:46-159 | the disjunction holds iff some remaining child builds; it stops right after the first such child |
| CompositeProperties.EmptyCompositesNeverBuild | src/main/java/jenkins/branch/buildstrategies/basic/AllBranchBuildStrategyImpl.java:60-92 | a missing or empty list never builds and consults nothing, for all three composites |
| CompositeProperties.AllIff | src/main/java/jenkins/branch/buildstrategies/basic/AllBranchBuildStrategyImpl.java:86-108 | `All` builds iff its list is non-empty and every child builds on the context without causes |
| CompositeProperties.AllStopsAtFirstRefusal | src/main/java/jenkins/branch/buildstrategies/basic/AllBranchBuildStrategyImpl.java:94-105 | when child j is the first to refuse, exactly j+1 children are consulted |
| CompositeProperties.AllIgnoresChildrenAfterRefusal | src/main/java/jenkins/branch/buildstrategies/basic/AllBranchBuildStrategyImpl.java:94-105 | children after a refusing child cannot change the verdict |
| CompositeProperties.AllIgnoresCauses | src/main/java/jenkins/branch/buildstrategies/basic/AllBranchBuildStrategyImpl.java:86-102 | every child gets the same context, and the causes never reach it |
| CompositeProperties.FullPassConsultsEveryChild | src/main/java/jenkins/branch/buildstrategies/basic/AllBranchBuildStrategyImpl.java:94-107 | a composite that does not stop early consults every child |
| CompositeProperties.UserCauseRuleUnderAllAlwaysBuilds | src/main/java/jenkins/branch/buildstrategies/basic/AllBranchBuildStrategyImpl.java:95-102 | a user-cause rule nested in `All` always builds |
| CompositeProperties.NoneOfIff | src/main/java/jenkins/branch/buildstrategies/basic/NoneBranchBuildStrategyImpl.java:66-86 | `NoneOf` builds iff its list is non-empty and no child builds on the legacy context |
| CompositeProperties.NoneOfStopsAtFirstBuild | src/main/java/jenkins/branch/buildstrategies/basic/NoneBranchBuildStrategyImpl.java:75-82 | when child j is the first that builds, the verdict is false after exactly j+1 children |
| CompositeProperties.NoneOfIgnoresChildrenAfterBuild | src/main/java/jenkins/branch/buildstrategies/basic/NoneBranchBuildStrategyImpl.java:75-82 | children after one that builds cannot change the verdict |
| CompositeProperties.NoneOfIgnoresLastSeenAndCauses | src/main/java/jenkins/branch/buildstrategies/basic/NoneBranchBuildStrategyImpl.java:66-80 | the last-seen revision and the causes never influence `NoneOf` |
| CompositeProperties.UserCauseRuleUnderNoneOfNeverBuilds | src/main/java/jenkins/branch/buildstrategies/basic/NoneBranchBuildStrategyImpl.java:75-80 | `NoneOf` of a user-cause rule never builds |
| Scenarios.CompositeExamples | src/test/java/jenkins/branch/buildstrategies/basic/NoneBranchBuildStrategyImplTest.java:62-185 | the unit-test combinations of always-true and always-false children, with the number of children consulted |
| CompositeProperties.AnyOfIff | src/test/java/jenkins/branch/buildstrategies/basic/AnyBranchBuildStrategyImplTest.java:46-126 | `AnyOf` builds iff some child builds; an empty list never does |
| CompositeProperties.AnyOfStopsAtFirstBuild | src/test/java/jenkins/branch/buildstrategies/basic/AnyBranchBuildStrategyImplTest.java:129-159 | when child j is the first that builds, the verdict is true after exactly j+1 children |
| CompositeProperties.AnyOfIgnoresChildrenAfterBuild | src/test/java/jenkins/branch/buildstrategies/basic/AnyBranchBuildStrategyImplTest.java:129-159 | children after one that builds cannot change the verdict |
| LeafProperties.RegularBranchesIff | src/main/java/jenkins/branch/buildstrategies/basic/BranchBuildStrategyImpl.java:91-105 | builds exactly the plain branches; the revisions and causes do not matter |
| Strategies.HasUserCause | src/main/java/jenkins/branch/buildstrategies/basic/CauseBuildStrategyImpl.java:79-85 | holds iff some cause is a user cause |
| LeafProperties.UserCauseRuleIff | src/main/java/jenkins/branch/buildstrategies/basic/CauseBuildStrategyImpl.java:69-87 | the user-cause rule builds iff no cause is a user cause, whatever the head and revisions |
| Scm.WithoutCauses | src/main/java/jenkins/branch/buildstrategies/basic/CauseBuildStrategyImpl.java:58-64 | the overloads without causes forward the same head and revisions with an empty cause list |
| LeafProperties.UserCauseRuleWithoutCausesBuilds | src/main/java/jenkins/branch/buildstrategies/basic/CauseBuildStrategyImpl.java:38-64 | through the overloads without causes the user-cause rule always builds |
| LeafProperties.SkipInitialIff | src/main/java/jenkins/branch/buildstrategies/basic/SkipInitialBuildOnFirstBranchIndexing.java:66-78 | builds iff a last-seen revision exists and differs from the current one; head, last-built and causes do not matter |
| Scm.FromPrevious | src/main/java/jenkins/branch/buildstrategies/basic/SkipInitialBuildOnFirstBranchIndexing.java:57-61 | the single-previous-revision overload passes that revision as both last-built and last-seen, with no causes |
| LeafProperties.SkipInitialFromPrevious | src/main/java/jenkins/branch/buildstrategies/basic/SkipInitialBuildOnFirstBranchIndexing.java:57-61 | through that overload the rule builds iff the previous revision exists and differs from the current one |
| Strategies.HasBranchIndexingCause | src/main/java/jenkins/branch/buildstrategies/basic/CustomSkipInitialBuildOnFirstBranchIndexing.java:83-90 | holds iff some cause is a branch-indexing cause |
| LeafProperties.CustomSkipInitialCases | src/main/java/jenkins/branch/buildstrategies/basic/CustomSkipInitialBuildOnFirstBranchIndexing.java:69-81 | first sight during indexing and an unchanged revision skip; first sight otherwise and a changed revision build |
| LeafProperties.CustomSkipInitialWithoutCauses | src/main/java/jenkins/branch/buildstrategies/basic/CustomSkipInitialBuildOnFirstBranchIndexing.java:59-64 | through the overload without causes the rule builds iff the current revision is not the last-seen one |
| LeafProperties.SkipVariantsDiffer | src/main/java/jenkins/branch/buildstrategies/basic/SkipInitialBuildOnFirstBranchIndexing.java:74-77 | on a never-seen head outside indexing the two skip variants disagree |

## Left out

- Regular-expression semantics: `Host.regexMatches` stands for the host's whole-name `Pattern.matches`. The model
  neither states nor checks that it matches the whole name. `Host.regexCompiles` stands for `Pattern.compile`
  not throwing; the form validation `doCheckRegex` that reports the same condition is not modelled.
- NameFilters.ExactCaseInsensitiveIsEquivalence: case-insensitive exact matching folds ASCII letters only. Java's `equalsIgnoreCase`
  also folds non-ASCII letters. Wildcard and regex matching compile without Unicode case, so for them the ASCII fold is exact.
- NameFilters.ExactAgreesWithStarFreeWildcard: the case-insensitive agreement is promised up to ASCII case only.
  `equalsIgnoreCase` also folds non-ASCII letters (`É` and `é`, the Kelvin sign and `k`), while the wildcard
  expression compiles with `CASE_INSENSITIVE` but without `UNICODE_CASE`. So for such names the two filters differ,
  and the model, folding ASCII only for both, does not show that difference.
- Decimal.ParseLong: the 64-bit range check is not modelled. Only ASCII digits are accepted, while `Character.digit`
  also accepts other Unicode decimal digits.
- NameFilters.NewRegex: the compile error is returned as a `Failure` carrying the expression, not as the
  `PatternSyntaxException` with its message and index.
- TagWindow.Bound: `TimeUnit.toMillis` saturation and long overflow are not modelled; integers are unbounded.
- The wall clock is the parameter `Host.now`.
- Logging, `toString`, `Util.getPastTimeString`, descriptors and display names: no effect on decisions.
- The lazily rebuilt `transient` pattern caches: memoisation with no observable effect.
- The accessors `getFilters`, `getStrategies`, `getAtLeastMillis`, `getAtMostMillis`, `getAtLeast(unit)` and
  `getAtMost(unit)`: plain field reads.
- `hashCode` of every strategy except the change-request one: only that one bears on a finding.
- `equals` of the user-cause and both skip strategies: Java uses reference identity, and the model, having no object
  identity, compares them by kind.
- Host overload dispatch. The host base class that routes between entry points is not part of this model.
  Two assumptions stand in for it, documented above: `NoneOf` receives the last-built revision as its previous
  revision, and the tag rule's legacy path drops the last-seen revision, which that rule never reads.
- Heads that are both a tag and a change request cannot be expressed: `Head` is a tagged union.
- The any-of combinator's implementation is not part of this model. `AnyOf` follows its tests, and its
  context forwarding is assumed to mirror `All`.
- `CauseBuildStrategyImpl.getParentCauses`: unused, and it reads host project state.
- `NoTriggerOrganizationFolderMigration`: persistence migration of host folders.
- The test support classes, the end-to-end indexing-event test, the ignored form-binding tests (used only as evidence),
  and the always-build test stub.

## Findings

| source | as written | input that shows it | evidently intended | confidence | as-written member | corrected member |
|---|---|---|---|---|---|---|
| src/main/java/jenkins/branch/buildstrategies/basic/ChangeRequestBuildStrategyImpl.java:179 | `equals` compares only `ignoreTargetOnlyChanges`, while `hashCode` (line 187) adds both flags | flags (false, false) and (false, true): equal, hash codes 0 and 2, and with a failing trust lookup one builds and the other does not | `equals` compares both flags, as the unit test's equals/hashCode contract check expects | high; not executed | ChangeRequestFilter.EqualsAsWrittenBreaksHashContract | ChangeRequestFilter.EqualsConsistentWithHashCode |
